// What the executor reports of a job, fed to the status table of the queue.
module JobReports {
  import opened Options
  import opened BuildQueue
  import opened QueueStatus
  import Rounds = JobRounds
  import Outcomes = JobOutcomes

  // The state each listener call passes to addState (BuildSystemImpl); log lines pass none.
  function StateOf(c: Rounds.Call): Option<Status> {
    match c
    case OnStarted => Some(Started)
    case OnSuccess => Some(Success)
    case OnFailure => Some(Failure)
    case OnAborted => Some(Aborted)
    case OnError => Some(Error)
    case _ => None
  }

  function StatesOf(calls: seq<Rounds.Call>): seq<Status> {
    if calls == [] then []
    else
      var last := StateOf(calls[|calls| - 1]);
      StatesOf(calls[..|calls| - 1]) + if last.Some? then [last.value] else []
  }

  // All states one job's executor reports over a run.
  function Reports(run: seq<Rounds.Step>): seq<Status> {
    if run == [] then []
    else
      var front, t := run[..|run| - 1], run[|run| - 1];
      Reports(front) + if t.RoundStep? then StatesOf(Rounds.Result(Rounds.After(front), t.replies).calls) else []
  }

  // The status after a series of reports, of which the table rejects the illegal ones.
  function Moved(from: Status, to: Status): Status { if IsValid(from, to) then to else from }

  function Fed(from: Status, reports: seq<Status>): Status {
    if reports == [] then from else Moved(Fed(from, reports[..|reports| - 1]), reports[|reports| - 1])
  }

  predicate AllLegal(from: Status, reports: seq<Status>) {
    forall i | 0 <= i < |reports| :: IsValid(Fed(from, reports[..i]), reports[i])
  }

  lemma FedOne(from: Status, reports: seq<Status>, s: Status)
    ensures Fed(from, reports + [s]) == Moved(Fed(from, reports), s)
    ensures AllLegal(from, reports) && IsValid(Fed(from, reports), s) ==> AllLegal(from, reports + [s])
  {
    assert (reports + [s])[..|reports|] == reports;
    assert forall i | 0 <= i < |reports| :: (reports + [s])[..i] == reports[..i];
  }

  // ---------------------------------------------------------------- one round

  lemma OneState(c: Rounds.Call)
    ensures StatesOf([c]) == if StateOf(c).Some? then [StateOf(c).value] else []
  {
    assert [c][..0] == [];
    assert StatesOf([]) == [];
  }

  lemma SilentFirst(c: Rounds.Call, calls: seq<Rounds.Call>)
    requires StateOf(c).None? && |calls| <= 1
    ensures StatesOf([c] + calls) == StatesOf(calls)
  {
    OneState(c);
    if calls == [] {
      assert [c] + calls == [c];
    } else {
      assert ([c] + calls)[..1] == [c] && calls == [calls[0]];
      OneState(calls[0]);
    }
  }

  lemma ErrorStates(s: Rounds.JobState, config: Rounds.Retry)
    ensures var o := Rounds.HandleError(s, config);
            |o.calls| <= 1 && StatesOf(o.calls) == if o.upsert.Some? then [] else [Error]
  {
    OneState(Rounds.OnLog);
    OneState(Rounds.OnError);
  }

  // An unaborted round reports nothing and keeps its status, reports STARTED going from starting
  // to started, or ends the job with one report: from a started job any, before that an error.
  ghost predicate Reporting(s: Rounds.JobState, o: Rounds.Outcome) {
    var states := StatesOf(o.calls);
    match o.upsert
    case Some(next) => states == if next.Started? && !s.Started? then [Started] else []
    case None =>
      |states| == 1 && states[0] in (if s.Started? then {Success, Failure, Aborted, Error} else {Error})
  }

  lemma RetryReports(s: Rounds.JobState, config: Rounds.Retry)
    requires !s.Abort?
    ensures var o := Rounds.HandleError(s, config);
            Reporting(s, o) && Reporting(s, o.(calls := [Rounds.StartActivity] + o.calls))
  {
    ErrorStates(s, config);
    SilentFirst(Rounds.StartActivity, Rounds.HandleError(s, config).calls);
  }

  lemma QueuedReports(s: Rounds.JobState, r: Rounds.Replies)
    requires s.Queued? && r.Connector?
    ensures Reporting(s, Rounds.QueuedRound(s, false, r))
  {
    match r.product
    case Fails => RetryReports(s, Rounds.ERROR);
    case Returns(None) => RetryReports(s, Rounds.FIND_PRODUCT);
    case Returns(Some(_)) =>
      match r.start
      case Fails => RetryReports(s, Rounds.ERROR);
      case Returns(true) => SilentFirst(Rounds.StartActivity, []);
      case Returns(false) => RetryReports(s, Rounds.START_ACTIVITY);
  }

  lemma StartingReports(s: Rounds.JobState, r: Rounds.Replies)
    requires s.Starting? && r.Connector?
    ensures Reporting(s, Rounds.StartingRound(s, false, r))
  {
    RetryReports(s, Rounds.ERROR);
    RetryReports(s, Rounds.STARTING_FIND);
    OneState(Rounds.OnStarted);
  }

  lemma StartedReports(s: Rounds.JobState, r: Rounds.Replies)
    requires s.Started? && r.Connector?
    ensures Reporting(s, Rounds.StartedRound(s, false, r))
  {
    RetryReports(s, Rounds.ERROR);
    RetryReports(s, Rounds.STARTED_FIND);
    if r.find.Returns? && r.find.value.Some? && r.find.value.value.Finished? {
      OneState(Rounds.VerdictCall(r.find.value.value.verdict));
    }
  }

  lemma RoundReports(items: seq<Rounds.JobState>, current: Option<Rounds.JobState>, r: Rounds.Replies)
    requires Rounds.Inv(items, current) && current.Some? && !Rounds.IsAborted(items)
    ensures Reporting(current.value, Rounds.Round(items, r))
  {
    Rounds.RecoveredKind(items);
    OneState(Rounds.OnError);
    if r.Connector? {
      match current.value
      case Queued(_) => QueuedReports(current.value, r);
      case Starting(_, _) => StartingReports(current.value, r);
      case Started(_, _, _) => StartedReports(current.value, r);
    }
  }

  // ---------------------------------------------------------------- whole runs

  // The status of a job in that state that is still scheduled.
  function Expected(current: Option<Rounds.JobState>): Status {
    if current.Some? && current.value.Started? then Started else Starting
  }

  // The status the reports so far should have led to.
  ghost predicate Agrees(run: seq<Rounds.Step>, status: Status) {
    if run == [] || Rounds.After(run).scheduled then status == Expected(Rounds.LastStored(run)) else IsTerminal(status)
  }

  lemma NothingReported(reports: seq<Status>, calls: seq<Rounds.Call>)
    requires StatesOf(calls) == []
    ensures reports + StatesOf(calls) == reports
  {
  }

  lemma OneReported(reports: seq<Status>, calls: seq<Rounds.Call>, s: Status)
    requires AllLegal(Starting, reports) && StatesOf(calls) == [s] && IsValid(Fed(Starting, reports), s)
    ensures AllLegal(Starting, reports + StatesOf(calls)) && Fed(Starting, reports + StatesOf(calls)) == s
  {
    FedOne(Starting, reports, s);
  }

  lemma StepAgrees(reports: seq<Status>, s: Rounds.JobState, o: Rounds.Outcome)
    requires AllLegal(Starting, reports) && Fed(Starting, reports) == Expected(Some(s))
    requires Reporting(s, o) && (o.upsert.Some? && s.Started? ==> o.upsert.value.Started?)
    ensures var all := reports + StatesOf(o.calls);
            && AllLegal(Starting, all)
            && (if o.upsert.Some? then Fed(Starting, all) == Expected(o.upsert) else IsTerminal(Fed(Starting, all)))
  {
    if StatesOf(o.calls) == [] {
      NothingReported(reports, o.calls);
    } else {
      assert StatesOf(o.calls) == [StatesOf(o.calls)[0]];
      OneReported(reports, o.calls, StatesOf(o.calls)[0]);
    }
  }

  lemma RoundAgrees(front: seq<Rounds.Step>, r: Rounds.Replies)
    requires Rounds.IsRun(front + [Rounds.RoundStep(r)]) && Rounds.IsRun(front) && Rounds.AbortJob !in front
    requires Rounds.After(front).scheduled && front != []
    requires AllLegal(Starting, Reports(front)) && Agrees(front, Fed(Starting, Reports(front)))
    ensures var o := Rounds.Result(Rounds.After(front), r);
            var all := Reports(front) + StatesOf(o.calls);
            && AllLegal(Starting, all)
            && (if o.upsert.Some? then Fed(Starting, all) == Expected(o.upsert) else IsTerminal(Fed(Starting, all)))
  {
    Rounds.JobTerminates(front);
    Rounds.RecoversLastStored(front);
    var items, current := Rounds.After(front).items, Rounds.LastStored(front);
    Rounds.ItemsAreFew(items, current);
    Rounds.NotAborted(items);
    RoundReports(items, current, r);
    Rounds.RoundFollows(items, current, r);
    StepAgrees(Reports(front), current.value, Rounds.Round(items, r));
  }

  lemma Unfolded(front: seq<Rounds.Step>, r: Rounds.Replies)
    ensures var run := front + [Rounds.RoundStep(r)];
            var o := Rounds.Result(Rounds.After(front), r);
            && Reports(run) == Reports(front) + StatesOf(o.calls)
            && Rounds.LastStored(run) == (if o.upsert.Some? then o.upsert else Rounds.LastStored(front))
            && Rounds.After(run).scheduled == o.upsert.Some?
  {
    assert (front + [Rounds.RoundStep(r)])[..|front|] == front;
  }

  // In every run without an abort each report is, from STARTING on, a legal move of the queue's
  // table, and the job is terminal there exactly when the executor has nothing left to do.
  lemma {:induction false} ReportsAreLegal(run: seq<Rounds.Step>)
    requires Rounds.IsRun(run) && Rounds.AbortJob !in run
    ensures AllLegal(Starting, Reports(run)) && Agrees(run, Fed(Starting, Reports(run)))
  {
    if run != [] {
      var front, t := run[..|run| - 1], run[|run| - 1];
      assert run == front + [t];
      ReportsAreLegal(front);
      NothingBeforeStart(front);
      match t
      case StartJob => JustStarted();
      case RoundStep(r) =>
        RoundAgrees(front, r);
        Unfolded(front, r);
    }
  }

  lemma NothingBeforeStart(run: seq<Rounds.Step>)
    requires Rounds.IsRun(run) && Rounds.AbortJob !in run
    ensures Rounds.StartJob !in run ==> run == []
    ensures run == [] ==> !Rounds.After(run).scheduled
  {
    Rounds.JobTerminates(run);
  }

  lemma JustStarted()
    ensures var run := [Rounds.StartJob];
            Reports(run) == [] && Rounds.After(run).scheduled && Rounds.LastStored(run) == Some(Rounds.Queued(0))
  {
    assert [Rounds.StartJob][..0] == [];
  }

  // ---------------------------------------------------------------- what the reports say

  lemma {:induction false} StatesAre(calls: seq<Rounds.Call>, s: Status)
    ensures s in StatesOf(calls) <==> exists c :: c in calls && StateOf(c) == Some(s)
  {
    if calls != [] {
      StatesAre(calls[..|calls| - 1], s);
      assert calls == calls[..|calls| - 1] + [calls[|calls| - 1]];
    }
  }

  lemma EndStates(calls: seq<Rounds.Call>, s: Status)
    requires IsTerminal(s)
    ensures s in StatesOf(calls) <==>
              match s
              case Success => Rounds.OnSuccess in calls
              case Failure => Rounds.OnFailure in calls
              case Aborted => Rounds.OnAborted in calls
              case Error => Rounds.OnError in calls
              case _ => false
  {
    StatesAre(calls, s);
    assert StateOf(Rounds.OnSuccess) == Some(Success) && StateOf(Rounds.OnFailure) == Some(Failure);
    assert StateOf(Rounds.OnAborted) == Some(Aborted) && StateOf(Rounds.OnError) == Some(Error);
  }

  // The status a round leads to, if it ends the job.
  ghost predicate EndsAt(run: seq<Rounds.Step>, i: nat, s: Status) {
    match s
    case Success => Outcomes.FinishedAt(run, i, Rounds.Passed)
    case Failure => Outcomes.FinishedAt(run, i, Rounds.VerdictFailed)
    case Aborted => Outcomes.FinishedAt(run, i, Rounds.VerdictAborted) || Outcomes.FinishedAt(run, i, Rounds.Skipped)
    case Error => Outcomes.FailedAt(run, i)
    case _ => false
  }

  lemma EndsExactly(run: seq<Rounds.Step>, i: nat, s: Status)
    requires Rounds.IsRun(run) && IsTerminal(s)
    ensures EndsAt(run, i, s) <==>
              Outcomes.IsRound(run, i) && s in StatesOf(Rounds.Result(Rounds.After(run[..i]), run[i].replies).calls)
  {
    Outcomes.CallsExactly(run, i);
    if Outcomes.IsRound(run, i) { EndStates(Rounds.Result(Rounds.After(run[..i]), run[i].replies).calls, s); }
  }

  lemma {:induction false} ReportsAre(run: seq<Rounds.Step>, s: Status)
    requires Rounds.IsRun(run) && IsTerminal(s)
    ensures s in Reports(run) <==> exists i: nat :: EndsAt(run, i, s)
  {
    if run != [] {
      var n := |run| - 1;
      var front := run[..n];
      ReportsAre(front, s);
      EndsExactly(run, n, s);
      forall i: nat | i < n ensures EndsAt(run, i, s) <==> EndsAt(front, i, s) { SameEnd(run, i, s); }
      forall i: nat | i >= n ensures !EndsAt(front, i, s) && (i > n ==> !EndsAt(run, i, s)) {}
    }
  }

  lemma SameEnd(run: seq<Rounds.Step>, i: nat, s: Status)
    requires i < |run| - 1
    ensures EndsAt(run, i, s) <==> EndsAt(run[..|run| - 1], i, s)
  {
    assert run[..|run| - 1][..i] == run[..i];
  }

  lemma LegalFront(from: Status, reports: seq<Status>)
    requires AllLegal(from, reports) && reports != []
    ensures AllLegal(from, reports[..|reports| - 1])
    ensures IsValid(Fed(from, reports[..|reports| - 1]), reports[|reports| - 1])
  {
    assert forall i | 0 <= i < |reports| - 1 :: reports[..|reports| - 1][..i] == reports[..i];
  }

  lemma {:induction false} TerminalIsReported(from: Status, reports: seq<Status>, s: Status)
    requires AllLegal(from, reports) && !IsTerminal(from) && IsTerminal(s)
    ensures Fed(from, reports) == s <==> s in reports
  {
    if reports != [] {
      var front, last := reports[..|reports| - 1], reports[|reports| - 1];
      LegalFront(from, reports);
      TerminalIsReported(from, front, s);
      assert s in front ==> Fed(from, front) == s;
      assert Fed(from, reports) == last && reports == front + [last];
    }
  }

  // An unaborted job ends as SUCCESS, FAILURE, ABORTED or ERROR exactly by what its rounds found.
  lemma FinalStatus(run: seq<Rounds.Step>, s: Status)
    requires Rounds.IsRun(run) && Rounds.AbortJob !in run && IsTerminal(s)
    ensures Fed(Starting, Reports(run)) == s <==> exists i: nat :: EndsAt(run, i, s)
  {
    ReportsAreLegal(run);
    TerminalIsReported(Starting, Reports(run), s);
    ReportsAre(run, s);
  }

  // ---------------------------------------------------------------- on the queue

  function Told(calls: seq<Call>, j: Job): seq<Status> {
    if calls == [] then []
    else
      var c := calls[|calls| - 1];
      Told(calls[..|calls| - 1], j) + if c.StateCall? && c.job == j then [c.status] else []
  }

  // No push interrupts the job (which would abort it in the executor too).
  predicate Interrupts(m: System, c: Call, j: Job) { c.PushCall? && Interrupted(m.queue, c.job) == Some(j) }

  predicate Undisturbed(base: seq<Call>, tail: seq<Call>, j: Job)
    decreases |tail|
  {
    tail == [] || (Undisturbed(base, tail[..|tail| - 1], j)
                   && !Interrupts(DoAll(base + tail[..|tail| - 1]), tail[|tail| - 1], j))
  }

  lemma {:induction false} WritesElsewhere(log: Log, s: Status, jobs: seq<Job>, j: Job)
    requires Known(log, j) && j !in jobs
    ensures Known(WriteAll(log, s, jobs), j) && Current(WriteAll(log, s, jobs), j) == Current(log, j)
  {
    if jobs != [] {
      assert jobs == jobs[..|jobs| - 1] + [jobs[|jobs| - 1]];
      WritesElsewhere(log, s, jobs[..|jobs| - 1], j);
    }
  }

  lemma {:induction false} TakenWereWaiting(m: System, jobs: seq<Job>, j: Job)
    requires Coupled(m) && AllPaths(m) && CanTake(m.queue, jobs) && j in jobs
    ensures Known(m.log, j) && Current(m.log, j) == QueueStatus.Queued
    ensures Known(DoStart(m, jobs).log, j) && Current(DoStart(m, jobs).log, j) == Starting
  {
    var front, last := jobs[..|jobs| - 1], jobs[|jobs| - 1];
    assert jobs == front + [last];
    StartsKeepAll(m, front);
    if j in front {
      TakenWereWaiting(m, front, j);
      assert Matches(DoStart(m, front), j);
      assert last != j;
    } else {
      var n := DoStart(m, front);
      assert IsWaiting(n.queue, j) && Current(n.log, j) == QueueStatus.Queued;
      WasKnown(m.log, Starting, front, j);
    }
  }

  lemma {:induction false} WasKnown(log: Log, s: Status, jobs: seq<Job>, j: Job)
    requires Known(WriteAll(log, s, jobs), j) && j !in jobs
    ensures Known(log, j) && Current(log, j) == Current(WriteAll(log, s, jobs), j)
  {
    if jobs != [] {
      assert jobs == jobs[..|jobs| - 1] + [jobs[|jobs| - 1]];
      WasKnown(log, s, jobs[..|jobs| - 1], j);
    }
  }

  // Only reports move the status of a job that was started and is not interrupted.
  lemma StepMoves(m: System, c: Call, j: Job)
    requires Coupled(m) && AllPaths(m) && Allowed(m, c) && !Interrupts(m, c, j)
    requires Known(m.log, j) && Current(m.log, j) != QueueStatus.Queued
    ensures var n := Do(m, c);
            && Known(n.log, j) && Current(n.log, j) != QueueStatus.Queued
            && Current(n.log, j)
               == if c.StateCall? && c.job == j then Moved(Current(m.log, j), c.status) else Current(m.log, j)
  {
    match c
    case PushCall(job, score) =>
      assert Matches(m, j);
    case StartCall(jobs) =>
      if j in jobs { TakenWereWaiting(m, jobs, j); }
      WritesElsewhere(m.log, Starting, jobs, j);
    case StateCall(job, s) =>
  }

  lemma {:induction false} StatusFollows(base: seq<Call>, tail: seq<Call>, j: Job)
    requires AreCalls(base + tail) && Undisturbed(base, tail, j)
    requires Known(DoAll(base).log, j) && Current(DoAll(base).log, j) == Starting
    ensures var m := DoAll(base + tail);
            Known(m.log, j) && Current(m.log, j) == Fed(Starting, Told(tail, j)) != QueueStatus.Queued
    decreases |tail|
  {
    if tail == [] {
      assert base + tail == base;
    } else {
      var front, c := tail[..|tail| - 1], tail[|tail| - 1];
      assert base + tail == (base + front) + [c];
      AppendCall(base + front, c);
      StatusFollows(base, front, j);
      EveryRunIsCoupled(base + front);
      StepMoves(DoAll(base + front), c, j);
      if c.StateCall? && c.job == j { FedOne(Starting, Told(front, j), c.status); }
      else { assert Told(tail, j) == Told(front, j); }
    }
  }

  // A job was handed out by start and its executor runs without an abort. Whatever else happens to
  // the queue meanwhile, its reports are all legal when they arrive, and it holds its queue's
  // active slot exactly as long as the executor has something left to do for it.
  lemma SlotIsHeldWhileRunning(base: seq<Call>, jobs: seq<Job>, tail: seq<Call>, j: Job, run: seq<Rounds.Step>)
    requires AreCalls(base + [StartCall(jobs)] + tail) && j in jobs
    requires Undisturbed(base + [StartCall(jobs)], tail, j)
    requires Rounds.IsRun(run) && Rounds.AbortJob !in run && Told(tail, j) == Reports(run)
    ensures AllLegal(Starting, Told(tail, j))
    ensures var m := DoAll(base + [StartCall(jobs)] + tail);
            && Known(m.log, j) && Agrees(run, Current(m.log, j))
            && (IsActive(m.queue, j) <==> run == [] || Rounds.After(run).scheduled)
  {
    var begun := base + [StartCall(jobs)];
    PrefixOfCalls(begun, tail);
    AppendCall(base, StartCall(jobs));
    EveryRunIsCoupled(base);
    TakenWereWaiting(DoAll(base), jobs, j);
    StatusFollows(begun, tail, j);
    ReportsAreLegal(run);
    EveryRunIsCoupled(begun + tail);
    assert Matches(DoAll(begun + tail), j);
  }

  // So the queue shows SUCCESS for it if and only if a round of the started job found its activity
  // finished with PASSED, FAILURE for FAILED, ABORTED for ABORTED or SKIPPED, and ERROR if the
  // verdict was another one, there was no connector, or the retries ran out.
  lemma QueueShowsOutcome(base: seq<Call>, jobs: seq<Job>, tail: seq<Call>, j: Job, run: seq<Rounds.Step>)
    requires AreCalls(base + [StartCall(jobs)] + tail) && j in jobs
    requires Undisturbed(base + [StartCall(jobs)], tail, j)
    requires Rounds.IsRun(run) && Rounds.AbortJob !in run && Told(tail, j) == Reports(run)
    ensures var log := DoAll(base + [StartCall(jobs)] + tail).log;
            && Known(log, j)
            && (Current(log, j) == Success <==> exists i: nat :: Outcomes.FinishedAt(run, i, Rounds.Passed))
            && (Current(log, j) == Failure <==> exists i: nat :: Outcomes.FinishedAt(run, i, Rounds.VerdictFailed))
            && (Current(log, j) == Aborted <==>
                exists i: nat :: Outcomes.FinishedAt(run, i, Rounds.VerdictAborted)
                                 || Outcomes.FinishedAt(run, i, Rounds.Skipped))
            && (Current(log, j) == Error <==> exists i: nat :: Outcomes.FailedAt(run, i))
  {
    var begun := base + [StartCall(jobs)];
    PrefixOfCalls(begun, tail);
    AppendCall(base, StartCall(jobs));
    EveryRunIsCoupled(base);
    TakenWereWaiting(DoAll(base), jobs, j);
    StatusFollows(begun, tail, j);
    ShownStatus(run);
  }

  lemma ShownStatus(run: seq<Rounds.Step>)
    requires Rounds.IsRun(run) && Rounds.AbortJob !in run
    ensures var status := Fed(Starting, Reports(run));
            && (status == Success <==> exists i: nat :: Outcomes.FinishedAt(run, i, Rounds.Passed))
            && (status == Failure <==> exists i: nat :: Outcomes.FinishedAt(run, i, Rounds.VerdictFailed))
            && (status == Aborted <==>
                exists i: nat :: Outcomes.FinishedAt(run, i, Rounds.VerdictAborted)
                                 || Outcomes.FinishedAt(run, i, Rounds.Skipped))
            && (status == Error <==> exists i: nat :: Outcomes.FailedAt(run, i))
  {
    FinalStatus(run, Success);
    FinalStatus(run, Failure);
    FinalStatus(run, Aborted);
    FinalStatus(run, Error);
    assert forall i: nat :: EndsAt(run, i, Success) <==> Outcomes.FinishedAt(run, i, Rounds.Passed);
    assert forall i: nat :: EndsAt(run, i, Failure) <==> Outcomes.FinishedAt(run, i, Rounds.VerdictFailed);
    assert forall i: nat :: EndsAt(run, i, Aborted) <==>
             Outcomes.FinishedAt(run, i, Rounds.VerdictAborted) || Outcomes.FinishedAt(run, i, Rounds.Skipped);
    assert forall i: nat :: EndsAt(run, i, Error) <==> Outcomes.FailedAt(run, i);
  }

  lemma {:induction false} PrefixOfCalls(base: seq<Call>, tail: seq<Call>)
    requires AreCalls(base + tail)
    ensures AreCalls(base)
    decreases |tail|
  {
    if tail == [] {
      assert base + tail == base;
    } else {
      assert (base + tail)[..|base + tail| - 1] == base + tail[..|tail| - 1];
      PrefixOfCalls(base, tail[..|tail| - 1]);
    }
  }
}
