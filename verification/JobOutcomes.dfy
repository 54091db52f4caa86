// What each round of a job answers, said by what the connector answered: which calls are made
// and which state is stored, in every run of the job.
module JobOutcomes {
  import opened Options
  import opened JobRounds

  // ---------------------------------------------------------------- what happened

  // The product of the source was found.
  predicate FoundProduct(r: Replies) { r.Connector? && r.product.Returns? && r.product.value.Some? }

  // An activity was found, and an activity finished with that verdict.
  predicate FoundActivity(r: Replies) { r.Connector? && r.find.Returns? && r.find.value.Some? }

  predicate FoundVerdict(r: Replies, v: Verdict) {
    FoundActivity(r) && r.find.value.value.Finished? && r.find.value.value.verdict == v
  }

  // A failure: so many retries it is given, and so many seconds until the next one.
  datatype Setback = Setback(retries: nat, seconds: nat)

  function QueuedSetback(aborted: bool, r: Replies): Option<Setback>
    requires r.Connector?
  {
    if r.product.Fails? then Some(Setback(20, 30))
    else if r.product.value.None? then Some(Setback(3, 3))
    else if aborted then (if r.abortOps.Fails? then Some(Setback(20, 30)) else None)
    else if r.start.Fails? then Some(Setback(20, 30))
    else if !r.start.value then Some(Setback(30, 30))
    else None
  }

  function StartingSetback(aborted: bool, r: Replies): Option<Setback>
    requires r.Connector?
  {
    if r.find.Fails? then Some(Setback(20, 30))
    else if r.find.value.None? then Some(Setback(100, 10))
    else if aborted && r.abortOps.Fails? then Some(Setback(20, 30))
    else None
  }

  function StartedSetback(aborted: bool, r: Replies): Option<Setback>
    requires r.Connector?
  {
    if aborted then None
    else if r.find.Fails? then Some(Setback(20, 30))
    else if r.find.value.None? then Some(Setback(3, 10))
    else None
  }

  function SetbackOf(s: JobState, aborted: bool, r: Replies): Option<Setback> {
    if r.NoConnector? then None
    else match s
      case Queued(_) => QueuedSetback(aborted, r)
      case Starting(_, _) => StartingSetback(aborted, r)
      case Started(_, _, _) => StartedSetback(aborted, r)
      case Abort => None
  }

  predicate Exhausted(s: JobState, aborted: bool, r: Replies) {
    SetbackOf(s, aborted, r).Some? && Failures(s) >= SetbackOf(s, aborted, r).value.retries
  }

  predicate Retried(s: JobState, aborted: bool, r: Replies) {
    SetbackOf(s, aborted, r).Some? && Failures(s) < SetbackOf(s, aborted, r).value.retries
  }

  // ---------------------------------------------------------------- what is answered

  // The terminal calls to the listener.
  ghost predicate TerminalCalls(s: JobState, aborted: bool, r: Replies, calls: seq<Call>) {
    && (OnSuccess in calls <==> !aborted && s.Started? && FoundVerdict(r, Passed))
    && (OnFailure in calls <==> !aborted && s.Started? && FoundVerdict(r, VerdictFailed))
    && (OnAborted in calls <==>
        !aborted && s.Started? && (FoundVerdict(r, VerdictAborted) || FoundVerdict(r, Skipped)))
    && (OnError in calls <==>
        || r.NoConnector?
        || (!aborted && s.Started? && (FoundVerdict(r, Errored) || FoundVerdict(r, OtherVerdict)))
        || Exhausted(s, aborted, r))
  }

  // The other calls.
  ghost predicate OtherCalls(s: JobState, aborted: bool, r: Replies, calls: seq<Call>) {
    && (OnStarted in calls <==> !aborted && s.Starting? && FoundActivity(r))
    && (StartActivity in calls <==> !aborted && s.Queued? && FoundProduct(r))
    && (ChangeTag in calls <==>
        aborted && r.Connector?
        && (s.Started? || (s.Starting? && FoundActivity(r)) || (s.Queued? && FoundProduct(r))))
    && (AbortActivity in calls <==> aborted && r.Connector? && (s.Started? || (s.Starting? && FoundActivity(r))))
    && (OnLog in calls <==> Retried(s, aborted, r) && (Failures(s) + 1) % 5 == 0)
  }

  // The state that is stored, and the seconds until it is looked at.
  ghost predicate Stores(s: JobState, aborted: bool, r: Replies, o: Outcome) {
    && (Retried(s, aborted, r) ==>
        && o.upsert.Some? && Failures(o.upsert.value) == Failures(s) + 1
        && o.wait == SetbackOf(s, aborted, r).value.seconds
        && match o.upsert.value
           case Queued(_) => s.Queued?
           case Starting(p, _) => s.Starting? && p == s.product
           case Started(p, a, _) => s.Started? && p == s.product && a == s.activity
           case Abort => false)
    && (!Retried(s, aborted, r) && o.upsert.Some? ==>
        !aborted && o.wait == 10 && Failures(o.upsert.value) == 0 && o.upsert.value != Queued(0))
    // starting exactly if startActivity answered true
    && ((o.upsert.Some? && o.upsert.value.Starting? && !s.Starting?) <==>
        !aborted && s.Queued? && FoundProduct(r) && r.start == Returns(true))
    && (o.upsert.Some? && o.upsert.value.Starting? && s.Queued? ==> o.upsert.value.product == r.product.value.value)
    // started, with the activity found, exactly if there is one
    && ((o.upsert.Some? && o.upsert.value.Started? && !s.Started?) <==> !aborted && s.Starting? && FoundActivity(r))
    && (o.upsert.Some? && o.upsert.value.Started? && s.Starting? ==>
        o.upsert.value.product == s.product && o.upsert.value.activity == r.find.value.value.id)
    // polled again exactly if the activity still runs
    && ((o.upsert.Some? && o.upsert.value.Started? && s.Started? && !Retried(s, aborted, r)) <==>
        !aborted && s.Started? && FoundActivity(r) && r.find.value.value.Running?)
    && (o.upsert.Some? && o.upsert.value.Started? && s.Started? ==>
        o.upsert.value.product == s.product && o.upsert.value.activity == s.activity)
  }

  ghost predicate Answers(s: JobState, aborted: bool, r: Replies, o: Outcome) {
    && TerminalCalls(s, aborted, r, o.calls) && OtherCalls(s, aborted, r, o.calls)
    && Stores(s, aborted, r, o)
    && forall i, j | 0 <= i < j < |o.calls| :: o.calls[i] != o.calls[j]
  }

  lemma QueuedCalls(s: JobState, aborted: bool, r: Replies)
    requires s.Queued? && r.Connector?
    ensures TerminalCalls(s, aborted, r, QueuedRound(s, aborted, r).calls)
    ensures OtherCalls(s, aborted, r, QueuedRound(s, aborted, r).calls)
  {
  }

  lemma QueuedStores(s: JobState, aborted: bool, r: Replies)
    requires s.Queued? && r.Connector?
    ensures Stores(s, aborted, r, QueuedRound(s, aborted, r))
  {
  }

  lemma QueuedAnswers(s: JobState, aborted: bool, r: Replies)
    requires s.Queued? && r.Connector?
    ensures Answers(s, aborted, r, QueuedRound(s, aborted, r))
  {
    QueuedCalls(s, aborted, r);
    QueuedStores(s, aborted, r);
  }

  lemma StartingCalls(s: JobState, aborted: bool, r: Replies)
    requires s.Starting? && r.Connector?
    ensures TerminalCalls(s, aborted, r, StartingRound(s, aborted, r).calls)
    ensures OtherCalls(s, aborted, r, StartingRound(s, aborted, r).calls)
  {
  }

  lemma StartingStores(s: JobState, aborted: bool, r: Replies)
    requires s.Starting? && r.Connector?
    ensures Stores(s, aborted, r, StartingRound(s, aborted, r))
  {
  }

  lemma StartingAnswers(s: JobState, aborted: bool, r: Replies)
    requires s.Starting? && r.Connector?
    ensures Answers(s, aborted, r, StartingRound(s, aborted, r))
  {
    StartingCalls(s, aborted, r);
    StartingStores(s, aborted, r);
  }

  lemma StartedAnswers(s: JobState, aborted: bool, r: Replies)
    requires s.Started? && r.Connector?
    ensures Answers(s, aborted, r, StartedRound(s, aborted, r))
  {
  }

  lemma RoundAnswers(items: seq<JobState>, s: JobState, r: Replies)
    requires Inv(items, Some(s))
    ensures Answers(s, Abort in items, r, Round(items, r))
  {
    RecoveredKind(items);
    NotAborted(items);
    if r.Connector? {
      match s
      case Queued(_) => QueuedAnswers(s, Abort in items, r);
      case Starting(_, _) => StartingAnswers(s, Abort in items, r);
      case Started(_, _, _) => StartedAnswers(s, Abort in items, r);
    }
  }

  // Before startJob a round does nothing, unless there is no connector.
  lemma RoundWithoutJob(items: seq<JobState>, r: Replies)
    requires Inv(items, None)
    ensures Round(items, r) == Outcome(if r.NoConnector? then [OnError] else [], None, 0)
  {
  }

  // ---------------------------------------------------------------- whole runs

  // Step `i` of the run is a round, and what was stored and asked before it.
  predicate IsRound(run: seq<Step>, i: nat) { i < |run| && run[i].RoundStep? }

  function AbortedBy(run: seq<Step>, i: nat): bool
    requires i <= |run|
  {
    AbortJob in run[..i]
  }

  // An unaborted round of a started job found its activity finished with that verdict.
  predicate FinishedAt(run: seq<Step>, i: nat, v: Verdict) {
    && IsRound(run, i) && !AbortedBy(run, i) && FoundVerdict(run[i].replies, v)
    && LastStored(run[..i]).Some? && LastStored(run[..i]).value.Started?
  }

  // A round of a job failed with no retries left.
  predicate ExhaustedAt(run: seq<Step>, i: nat) {
    && IsRound(run, i) && LastStored(run[..i]).Some?
    && Exhausted(LastStored(run[..i]).value, AbortedBy(run, i), run[i].replies)
  }

  // The job could not go on at a round.
  predicate FailedAt(run: seq<Step>, i: nat) {
    FinishedAt(run, i, Errored) || FinishedAt(run, i, OtherVerdict) || ExhaustedAt(run, i)
    || (IsRound(run, i) && run[i].replies.NoConnector?)
  }

  // A round makes the call.
  predicate CalledAt(run: seq<Step>, i: nat, c: Call) {
    IsRound(run, i) && c in Result(After(run[..i]), run[i].replies).calls
  }

  ghost predicate Reported(run: seq<Step>, c: Call) { exists i: nat :: CalledAt(run, i, c) }

  lemma {:induction false} PrefixIsRun(run: seq<Step>, n: nat)
    requires IsRun(run) && n <= |run|
    ensures IsRun(run[..n])
  {
    if n < |run| {
      PrefixIsRun(run[..|run| - 1], n);
      assert run[..|run| - 1][..n] == run[..n];
    } else {
      assert run[..n] == run;
    }
  }

  lemma {:induction false} AbortsAreStored(run: seq<Step>)
    requires IsRun(run)
    ensures Abort in After(run).items <==> AbortJob in run
  {
    if AbortJob in run { AbortStays(run); } else { JobTerminates(run); }
  }

  // Every round after every run answers as described, for the last state stored.
  lemma RunAnswers(run: seq<Step>, r: Replies)
    requires IsRun(run) && LastStored(run).Some?
    ensures Answers(LastStored(run).value, AbortJob in run, r, Result(After(run), r))
  {
    var items, s := After(run).items, LastStored(run).value;
    AbortsAreStored(run);
    RecoversLastStored(run);
    ItemsAreFew(items, Some(s));
    RoundAnswers(items, s, r);
  }

  lemma EveryRoundAnswers(run: seq<Step>, i: nat)
    requires IsRun(run) && IsRound(run, i) && LastStored(run[..i]).Some?
    ensures Answers(LastStored(run[..i]).value, AbortedBy(run, i), run[i].replies,
                    Result(After(run[..i]), run[i].replies))
  {
    PrefixIsRun(run, i);
    RunAnswers(run[..i], run[i].replies);
  }

  // The terminal calls of each round of each run.
  lemma CallsExactly(run: seq<Step>, i: nat)
    requires IsRun(run)
    ensures CalledAt(run, i, OnSuccess) <==> FinishedAt(run, i, Passed)
    ensures CalledAt(run, i, OnFailure) <==> FinishedAt(run, i, VerdictFailed)
    ensures CalledAt(run, i, OnAborted) <==> FinishedAt(run, i, VerdictAborted) || FinishedAt(run, i, Skipped)
    ensures CalledAt(run, i, OnError) <==> FailedAt(run, i)
  {
    if IsRound(run, i) {
      PrefixIsRun(run, i);
      if LastStored(run[..i]).Some? {
        EveryRoundAnswers(run, i);
      } else {
        RecoversLastStored(run[..i]);
        ItemsAreFew(After(run[..i]).items, None);
        RoundWithoutJob(After(run[..i]).items, run[i].replies);
      }
    }
  }

  // A run reports success if and only if some unaborted round of the started job found its
  // activity finished with PASSED; and so on for the other reports.
  lemma ReportedExactly(run: seq<Step>)
    requires IsRun(run)
    ensures Reported(run, OnSuccess) <==> exists i: nat :: FinishedAt(run, i, Passed)
    ensures Reported(run, OnFailure) <==> exists i: nat :: FinishedAt(run, i, VerdictFailed)
    ensures Reported(run, OnAborted) <==>
              exists i: nat :: FinishedAt(run, i, VerdictAborted) || FinishedAt(run, i, Skipped)
    ensures Reported(run, OnError) <==> exists i: nat :: FailedAt(run, i)
  {
    forall i: nat
      ensures CalledAt(run, i, OnSuccess) <==> FinishedAt(run, i, Passed)
      ensures CalledAt(run, i, OnFailure) <==> FinishedAt(run, i, VerdictFailed)
      ensures CalledAt(run, i, OnAborted) <==> FinishedAt(run, i, VerdictAborted) || FinishedAt(run, i, Skipped)
      ensures CalledAt(run, i, OnError) <==> FailedAt(run, i)
    {
      CallsExactly(run, i);
    }
  }
}
