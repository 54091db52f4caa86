// The Cynosure job executor, seen from one job. A round pops the job's accumulated states,
// recovers the current one, consults the connector and upserts at most one new state. A round
// is atomic, startJob is called once per key, and storing a state never fails.
module JobRounds {
  import opened Options
  import opened TaskQueue

  datatype JobState =
    | Queued(failures: nat)
    | Starting(product: int, failures: nat)
    | Started(product: int, activity: int, failures: nat)
    | Abort

  // What the connector answers in a round. A failed call rejects its promise.
  datatype Answer<T> = Fails | Returns(value: T)
  datatype Verdict = Passed | VerdictAborted | VerdictFailed | Errored | Skipped | OtherVerdict
  datatype Activity = Running(id: int) | Finished(id: int, verdict: Verdict)
  datatype Replies =
    | NoConnector
    | Connector(product: Answer<Option<int>>, start: Answer<bool>, find: Answer<Option<Activity>>, abortOps: Answer<()>)

  // Calls a round makes to the connector and to the listener.
  datatype Call =
    | StartActivity | ChangeTag | AbortActivity
    | OnStarted | OnSuccess | OnFailure | OnAborted | OnError | OnLog

  predicate EndsJob(c: Call) { c in {OnSuccess, OnFailure, OnAborted, OnError} }

  // What a round does: its calls, and the state it stores, to be looked at `wait` seconds later.
  datatype Outcome = Outcome(calls: seq<Call>, upsert: Option<JobState>, wait: nat)

  function Ends(calls: seq<Call>): Outcome { Outcome(calls, None, 0) }

  // ---------------------------------------------------------------- retry constants

  datatype Retry = Retry(count: nat, wait: nat)

  const FIND_PRODUCT := Retry(3, 3)
  const START_ACTIVITY := Retry(30, 30)
  const STARTING_FIND := Retry(100, 10)
  const STARTED_FIND := Retry(3, 10)
  const ERROR := Retry(20, 30)
  const POLL := 10

  function Limit(s: JobState): nat {
    match s
    case Queued(_) => START_ACTIVITY.count
    case Starting(_, _) => STARTING_FIND.count
    case _ => ERROR.count
  }

  function WithNewFailure(s: JobState): JobState {
    match s
    case Queued(f) => Queued(f + 1)
    case Starting(p, f) => Starting(p, f + 1)
    case Started(p, a, f) => Started(p, a, f + 1)
    case Abort => Abort
  }

  function Failures(s: JobState): nat { if s.Abort? then 0 else s.failures }

  function HandleError(s: JobState, config: Retry): Outcome {
    if Failures(s) < config.count then
      Outcome(if (Failures(s) + 1) % 5 == 0 then [OnLog] else [], Some(WithNewFailure(s)), config.wait)
    else Ends([OnError])
  }

  // ---------------------------------------------------------------- one round

  // states.reverse(); find(...)
  function Latest(states: seq<JobState>, f: JobState -> bool): Option<JobState> {
    if states == [] then None
    else if f(states[|states| - 1]) then Some(states[|states| - 1])
    else Latest(states[..|states| - 1], f)
  }

  function LatestStarted(states: seq<JobState>): Option<JobState> { Latest(states, (s: JobState) => s.Started?) }
  function LatestStarting(states: seq<JobState>): Option<JobState> { Latest(states, (s: JobState) => s.Starting?) }
  function LatestQueued(states: seq<JobState>): Option<JobState> { Latest(states, (s: JobState) => s.Queued?) }
  function IsAborted(states: seq<JobState>): bool { Latest(states, (s: JobState) => s.Abort?).Some? }

  // The state a round acts on.
  function Recovered(states: seq<JobState>): Option<JobState> {
    if LatestStarted(states).Some? then LatestStarted(states)
    else if LatestStarting(states).Some? then LatestStarting(states)
    else LatestQueued(states)
  }

  function VerdictCall(v: Verdict): Call {
    match v
    case Passed => OnSuccess
    case VerdictAborted => OnAborted
    case VerdictFailed => OnFailure
    case Errored => OnError
    case Skipped => OnAborted
    case OtherVerdict => OnError
  }

  function StartedRound(s: JobState, aborted: bool, r: Replies): Outcome
    requires s.Started? && r.Connector?
  {
    if aborted then Ends([ChangeTag, AbortActivity])   // rejected if one fails: no catch here
    else match r.find
      case Fails => HandleError(s, ERROR)
      case Returns(None) => HandleError(s, STARTED_FIND)
      case Returns(Some(Finished(_, v))) => Ends([VerdictCall(v)])
      case Returns(Some(Running(_))) => Outcome([], Some(Started(s.product, s.activity, 0)), POLL)
  }

  function StartingRound(s: JobState, aborted: bool, r: Replies): Outcome
    requires s.Starting? && r.Connector?
  {
    match r.find
    case Fails => HandleError(s, ERROR)
    case Returns(None) => HandleError(s, STARTING_FIND)
    case Returns(Some(a)) =>
      if aborted then
        var o := if r.abortOps.Fails? then HandleError(s, ERROR) else Ends([]);
        o.(calls := [ChangeTag, AbortActivity] + o.calls)
      else Outcome([OnStarted], Some(Started(s.product, a.id, 0)), POLL)
  }

  function QueuedRound(s: JobState, aborted: bool, r: Replies): Outcome
    requires s.Queued? && r.Connector?
  {
    match r.product
    case Fails => HandleError(s, ERROR)
    case Returns(None) => HandleError(s, FIND_PRODUCT)
    case Returns(Some(p)) =>
      if aborted then
        var o := if r.abortOps.Fails? then HandleError(s, ERROR) else Ends([]);
        o.(calls := [ChangeTag] + o.calls)
      else
        var o := match r.start
          case Fails => HandleError(s, ERROR)
          case Returns(true) => Outcome([], Some(Starting(p, 0)), STARTING_FIND.wait)
          case Returns(false) => HandleError(s, START_ACTIVITY);
        o.(calls := [StartActivity] + o.calls)
  }

  function Round(states: seq<JobState>, r: Replies): Outcome {
    if r.NoConnector? then Ends([OnError])
    else match Recovered(states)
      case None => Ends([])
      case Some(s) =>
        if s.Started? then StartedRound(s, IsAborted(states), r)
        else if s.Starting? then StartingRound(s, IsAborted(states), r)
        else if s.Queued? then QueuedRound(s, IsAborted(states), r)
        else Ends([])
  }

  // ---------------------------------------------------------------- runs of one job

  datatype Step = StartJob | AbortJob | RoundStep(replies: Replies)

  // What the task queue holds for the job's uid (TaskQueue.UidView).
  datatype Job = Job(items: seq<JobState>, scheduled: bool)

  function Upserted(j: Job, s: JobState): Job { Job(Newest(j.items, s), true) }

  function Result(j: Job, r: Replies): Outcome { Round(Range(j.items), r) }

  function Do(j: Job, t: Step): Job {
    match t
    case StartJob => Upserted(j, Queued(0))
    case AbortJob => Upserted(j, Abort)
    case RoundStep(r) =>
      if Result(j, r).upsert.Some? then Upserted(j, Result(j, r).upsert.value) else j.(scheduled := false)
  }

  function After(run: seq<Step>): Job {
    if run == [] then Job([], false) else Do(After(run[..|run| - 1]), run[|run| - 1])
  }

  // Rounds happen when the job is scheduled; startJob happens once.
  predicate IsRun(run: seq<Step>) {
    run == []
    || (&& IsRun(run[..|run| - 1])
        && (run[|run| - 1].StartJob? ==> StartJob !in run[..|run| - 1])
        && (run[|run| - 1].RoundStep? ==> After(run[..|run| - 1]).scheduled))
  }

  // The last state other than an abort that any step stored.
  function LastStored(run: seq<Step>): Option<JobState> {
    if run == [] then None
    else
      var front, t := run[..|run| - 1], run[|run| - 1];
      match t
      case StartJob => Some(Queued(0))
      case AbortJob => LastStored(front)
      case RoundStep(r) =>
        if Result(After(front), r).upsert.Some? then Result(After(front), r).upsert else LastStored(front)
  }

  // ---------------------------------------------------------------- the accumulated list

  lemma {:induction false} WithoutMembers(items: seq<JobState>, s: JobState, x: JobState)
    ensures x in Without(items, s) <==> x in items && x != s
  {
    if items != [] {
      WithoutMembers(items[..|items| - 1], s, x);
      assert items == items[..|items| - 1] + [items[|items| - 1]];
    }
  }

  predicate NoRepeats(items: seq<JobState>) { forall i, j | 0 <= i < j < |items| :: items[i] != items[j] }

  lemma {:induction false} WithoutRepeats(items: seq<JobState>, s: JobState)
    requires NoRepeats(items)
    ensures NoRepeats(Without(items, s))
  {
    if items != [] {
      var front, last := items[..|items| - 1], items[|items| - 1];
      WithoutRepeats(front, s);
      WithoutMembers(front, s, last);
      if last == s {
        assert Without(items, s) == Without(front, s);
      } else {
        Appended(Without(front, s), last);
      }
    }
  }

  lemma Appended(items: seq<JobState>, last: JobState)
    requires NoRepeats(items) && last !in items
    ensures NoRepeats(items + [last])
  {
  }

  lemma {:induction false} LatestWithout(items: seq<JobState>, s: JobState, f: JobState -> bool)
    requires !f(s)
    ensures Latest(Without(items, s), f) == Latest(items, f)
  {
    if items != [] {
      var front, last := items[..|items| - 1], items[|items| - 1];
      LatestWithout(front, s, f);
      var w := Without(items, s);
      assert if last == s then w == Without(front, s) else w[..|w| - 1] == Without(front, s);
    }
  }

  lemma LatestNewest(items: seq<JobState>, s: JobState, f: JobState -> bool)
    ensures Latest(Newest(items, s), f) == if f(s) then Some(s) else Latest(items, f)
  {
    var w := Newest(items, s);
    assert w[..|w| - 1] == Without(items, s);
    if !f(s) { LatestWithout(items, s, f); }
  }

  lemma {:induction false} LatestIsMember(items: seq<JobState>, f: JobState -> bool)
    ensures Latest(items, f).Some? ==> Latest(items, f).value in items && f(Latest(items, f).value)
    ensures Latest(items, f).None? ==> forall x | x in items :: !f(x)
  {
    if items != [] {
      LatestIsMember(items[..|items| - 1], f);
      assert items == items[..|items| - 1] + [items[|items| - 1]];
    }
  }

  // ---------------------------------------------------------------- state recovery

  // How a stored item may relate to the current state.
  predicate Fits(x: JobState, current: Option<JobState>) {
    match x
    case Abort => true
    case Queued(f) => f <= START_ACTIVITY.count && current.Some?
    case Starting(p, f) =>
      f <= STARTING_FIND.count && current.Some? && !current.value.Queued? && !current.value.Abort?
      && current.value.product == p
    case Started(p, a, f) =>
      f <= ERROR.count && current.Some? && current.value.Started?
      && current.value.product == p && current.value.activity == a
  }

  ghost predicate Inv(items: seq<JobState>, current: Option<JobState>) {
    && Recovered(items) == current
    && NoRepeats(items)
    && (forall x | x in items :: Fits(x, current))
  }

  // `next` may be stored on top of `current`: same state with more or no failures, or the next phase.
  predicate Follows(current: Option<JobState>, next: JobState) {
    && Fits(next, Some(next))
    && match next
       case Abort => false
       case Queued(_) => current.None? || current.value.Queued?
       case Starting(p, _) =>
         current.Some? && (current.value.Queued? || (current.value.Starting? && current.value.product == p))
       case Started(p, a, _) =>
         current.Some? && ((current.value.Starting? && current.value.product == p)
                           || (current.value.Started? && current.value.product == p && current.value.activity == a))
  }

  lemma RecoveredKind(items: seq<JobState>)
    ensures Recovered(items).Some? ==> Recovered(items).value in items && !Recovered(items).value.Abort?
    ensures Recovered(items).None? ==> forall x | x in items :: x.Abort?
    ensures Recovered(items).Some? && !Recovered(items).value.Started? ==> forall x | x in items :: !x.Started?
    ensures Recovered(items).Some? && Recovered(items).value.Queued? ==> forall x | x in items :: !x.Starting?
  {
    LatestIsMember(items, (s: JobState) => s.Started?);
    LatestIsMember(items, (s: JobState) => s.Starting?);
    LatestIsMember(items, (s: JobState) => s.Queued?);
  }

  lemma RecoveredNewest(items: seq<JobState>, s: JobState)
    ensures s.Started? ==> Recovered(Newest(items, s)) == Some(s)
    ensures s.Starting? && (forall x | x in items :: !x.Started?) ==> Recovered(Newest(items, s)) == Some(s)
    ensures s.Queued? && (forall x | x in items :: !x.Started? && !x.Starting?) ==>
              Recovered(Newest(items, s)) == Some(s)
    ensures s.Abort? ==> Recovered(Newest(items, s)) == Recovered(items)
  {
    LatestNewest(items, s, (s: JobState) => s.Started?);
    LatestNewest(items, s, (s: JobState) => s.Starting?);
    LatestNewest(items, s, (s: JobState) => s.Queued?);
    LatestIsMember(items, (s: JobState) => s.Started?);
    LatestIsMember(items, (s: JobState) => s.Starting?);
  }

  lemma NewestItems(items: seq<JobState>, s: JobState)
    requires NoRepeats(items)
    ensures NoRepeats(Newest(items, s))
    ensures forall x :: x in Newest(items, s) <==> x in items || x == s
  {
    WithoutRepeats(items, s);
    forall x ensures x in Without(items, s) <==> x in items && x != s { WithoutMembers(items, s, x); }
    Appended(Without(items, s), s);
  }

  lemma StoreKeepsInv(items: seq<JobState>, current: Option<JobState>, next: JobState)
    requires Inv(items, current) && Follows(current, next)
    ensures Inv(Newest(items, next), Some(next))
  {
    RecoveredKind(items);
    RecoveredNewest(items, next);
    NewestItems(items, next);
  }

  lemma AbortKeepsInv(items: seq<JobState>, current: Option<JobState>)
    requires Inv(items, current)
    ensures Inv(Newest(items, Abort), current)
  {
    RecoveredNewest(items, Abort);
    NewestItems(items, Abort);
  }

  // ---------------------------------------------------------------- at most 154 items

  const MOST := 154

  function Code(x: JobState): nat {
    match x
    case Queued(f) => f
    case Starting(_, f) => 31 + f
    case Started(_, _, f) => 132 + f
    case Abort => 153
  }

  lemma {:induction false} Pigeonhole(codes: seq<nat>, n: nat)
    requires forall i, j | 0 <= i < j < |codes| :: codes[i] != codes[j]
    requires forall i | 0 <= i < |codes| :: codes[i] < n
    ensures |codes| <= n
  {
    if n > 0 {
      if exists i :: 0 <= i < |codes| && codes[i] == n - 1 {
        var i :| 0 <= i < |codes| && codes[i] == n - 1;
        var rest := codes[..i] + codes[i + 1..];
        assert forall j | 0 <= j < |rest| :: rest[j] == codes[if j < i then j else j + 1];
        Pigeonhole(rest, n - 1);
      } else {
        Pigeonhole(codes, n - 1);
      }
    }
  }

  lemma ItemsAreFew(items: seq<JobState>, current: Option<JobState>)
    requires Inv(items, current)
    ensures |items| <= MOST && Range(items) == items
  {
    var codes := seq(|items|, i requires 0 <= i < |items| => Code(items[i]));
    forall i | 0 <= i < |items| ensures Fits(items[i], current) { assert items[i] in items; }
    Pigeonhole(codes, MOST);
  }

  // ---------------------------------------------------------------- what a round does

  lemma RoundFollows(items: seq<JobState>, current: Option<JobState>, r: Replies)
    requires Inv(items, current)
    ensures Round(items, r).upsert.Some? ==> Follows(current, Round(items, r).upsert.value)
  {
    if current.Some? {
      RecoveredKind(items);
      assert Fits(current.value, current);
    }
  }

  // In every run the state a round acts on is the last one stored, and the range read of the
  // data set never cuts anything off.
  lemma {:induction false} RecoversLastStored(run: seq<Step>)
    requires IsRun(run)
    ensures Inv(After(run).items, LastStored(run)) && |After(run).items| <= MOST
    ensures LastStored(run).None? <==> StartJob !in run
  {
    if run == [] {
      assert After(run).items == [];
    } else {
      var front, t := run[..|run| - 1], run[|run| - 1];
      assert run == front + [t];
      RecoversLastStored(front);
      var items := After(front).items;
      match t
      case StartJob => StoreKeepsInv(items, LastStored(front), Queued(0));
      case AbortJob => AbortKeepsInv(items, LastStored(front));
      case RoundStep(r) =>
        ItemsAreFew(items, LastStored(front));
        RoundFollows(items, LastStored(front), r);
        if Result(After(front), r).upsert.Some? {
          StoreKeepsInv(items, LastStored(front), Result(After(front), r).upsert.value);
        }
    }
    ItemsAreFew(After(run).items, LastStored(run));
  }

  // ---------------------------------------------------------------- termination

  function Phase(s: JobState): nat {
    match s case Queued(_) => 0 case Starting(_, _) => 1 case Started(_, _, _) => 2 case Abort => 3
  }

  // Rounds left before a job that sees no running activity must end: the retries left in its
  // phase, and all those of the phases after it.
  function Measure(s: JobState): int {
    match s
    case Queued(f) => 153 - f
    case Starting(_, f) => 122 - f
    case Started(_, _, f) => 21 - f
    case Abort => 0
  }

  // A poll that finds the activity still running.
  predicate IsPoll(current: Option<JobState>, r: Replies) {
    current.Some? && current.value.Started? && r.Connector?
    && r.find.Returns? && r.find.value.Some? && r.find.value.value.Running?
  }

  function Endings(calls: seq<Call>): nat {
    if calls == [] then 0 else Endings(calls[..|calls| - 1]) + if EndsJob(calls[|calls| - 1]) then 1 else 0
  }

  lemma EndingsOfTwo(a: Call, calls: seq<Call>)
    requires |calls| <= 1
    ensures Endings([a] + calls) == Endings([a]) + Endings(calls)
  {
    assert ([a] + calls)[..|calls|] == if calls == [] then [] else [a];
    if calls == [] { assert [a] + calls == [a]; }
  }

  // What is left to show of a round's outcome: it ends the job with one terminal call, or stores
  // a state with fewer rounds left (all of its phase again after a poll).
  ghost predicate Progress(s: JobState, o: Outcome, poll: bool) {
    if o.upsert.None? then Endings(o.calls) == 1
    else Endings(o.calls) == 0 && Phase(s) <= Phase(o.upsert.value)
         && (if poll then Measure(o.upsert.value) == 21 else Measure(o.upsert.value) < Measure(s))
  }

  lemma RetryProgress(s: JobState, config: Retry)
    requires !s.Abort?
    ensures Progress(s, HandleError(s, config), false) && |HandleError(s, config).calls| <= 1
  {
  }

  lemma QueuedProgress(s: JobState, r: Replies)
    requires s.Queued? && r.Connector? && Fits(s, Some(s))
    ensures Progress(s, QueuedRound(s, false, r), false)
  {
    RetryProgress(s, ERROR);
    RetryProgress(s, FIND_PRODUCT);
    RetryProgress(s, START_ACTIVITY);
    EndingsOfTwo(StartActivity, HandleError(s, ERROR).calls);
    EndingsOfTwo(StartActivity, HandleError(s, START_ACTIVITY).calls);
    EndingsOfTwo(StartActivity, []);
  }

  lemma RoundProgress(items: seq<JobState>, current: Option<JobState>, r: Replies)
    requires Inv(items, current) && current.Some? && !IsAborted(items)
    ensures Progress(current.value, Round(items, r), IsPoll(current, r))
    ensures Measure(current.value) >= 1
  {
    RecoveredKind(items);
    var s := current.value;
    assert Fits(s, current);
    if r.Connector? {
      RetryProgress(s, ERROR);
      if s.Queued? {
        QueuedProgress(s, r);
      } else if s.Starting? {
        RetryProgress(s, STARTING_FIND);
      } else {
        RetryProgress(s, STARTED_FIND);
      }
    }
  }

  function Rounds(run: seq<Step>): nat {
    if run == [] then 0 else Rounds(run[..|run| - 1]) + if run[|run| - 1].RoundStep? then 1 else 0
  }

  function Polls(run: seq<Step>): nat {
    if run == [] then 0
    else
      var front, t := run[..|run| - 1], run[|run| - 1];
      Polls(front) + if t.RoundStep? && IsPoll(LastStored(front), t.replies) then 1 else 0
  }

  // Terminal listener calls made over a run.
  function AllEndings(run: seq<Step>): nat {
    if run == [] then 0
    else
      var front, t := run[..|run| - 1], run[|run| - 1];
      AllEndings(front) + if t.RoundStep? then Endings(Result(After(front), t.replies).calls) else 0
  }

  function Left(run: seq<Step>): int {
    if After(run).scheduled && LastStored(run).Some? then Measure(LastStored(run).value) else 0
  }

  // Without an abort: the rounds that are not polls of a running activity number at most
  // 153 + 20 per such poll, no terminal call is made while the job is scheduled, and exactly
  // one has been made once it is not.
  lemma {:induction false} JobTerminates(run: seq<Step>)
    requires IsRun(run) && AbortJob !in run
    ensures Abort !in After(run).items
    ensures StartJob !in run ==> run == []
    ensures run != [] ==> Rounds(run) - Polls(run) + Left(run) <= 153 + 20 * Polls(run)
    ensures AllEndings(run) == if run != [] && !After(run).scheduled then 1 else 0
    ensures Rounds(run) - Polls(run) <= 153 + 20 * Polls(run)
  {
    if run != [] {
      var front, t := run[..|run| - 1], run[|run| - 1];
      assert run == front + [t];
      JobTerminates(front);
      RecoversLastStored(front);
      var items, current := After(front).items, LastStored(front);
      match t {
        case StartJob =>
          NewestItems(items, Queued(0));
          assert front == [];
        case RoundStep(r) =>
          ItemsAreFew(items, current);
          NotAborted(items);
          assert front != [];
          RoundProgress(items, current, r);
          RoundFollows(items, current, r);
          if Result(After(front), r).upsert.Some? { NewestItems(items, Result(After(front), r).upsert.value); }
      }
      RecoversLastStored(run);
      if After(run).scheduled { RecoveredKind(After(run).items); assert Fits(LastStored(run).value, LastStored(run)); }
    }
  }

  lemma NotAborted(items: seq<JobState>)
    ensures IsAborted(items) <==> Abort in items
  {
    LatestIsMember(items, (s: JobState) => s.Abort?);
  }

  // A job never moves back to an earlier phase.
  lemma PhasesAdvance(run: seq<Step>)
    requires run != [] && IsRun(run) && LastStored(run[..|run| - 1]).Some?
    ensures LastStored(run).Some?
    ensures Phase(LastStored(run[..|run| - 1]).value) <= Phase(LastStored(run).value)
  {
    var front, t := run[..|run| - 1], run[|run| - 1];
    RecoversLastStored(front);
    ItemsAreFew(After(front).items, LastStored(front));
    if t.RoundStep? { RoundFollows(After(front).items, LastStored(front), t.replies); }
  }

  // ---------------------------------------------------------------- abort

  lemma DoKeepsItems(j: Job, t: Step, x: JobState)
    requires NoRepeats(j.items) && (x in j.items || (t == AbortJob && x == Abort))
    ensures x in Do(j, t).items
  {
    match t
    case StartJob => NewestItems(j.items, Queued(0));
    case AbortJob => NewestItems(j.items, Abort);
    case RoundStep(r) => if Result(j, r).upsert.Some? { NewestItems(j.items, Result(j, r).upsert.value); }
  }

  lemma {:induction false} AbortStays(run: seq<Step>)
    requires IsRun(run) && AbortJob in run
    ensures Abort in After(run).items
  {
    var front, t := run[..|run| - 1], run[|run| - 1];
    assert run == front + [t];
    RecoversLastStored(front);
    if t != AbortJob { AbortStays(front); }
    DoKeepsItems(After(front), t, Abort);
  }

  predicate Quiet(c: Call) { c.ChangeTag? || c.AbortActivity? || c.OnError? || c.OnLog? }

  lemma AbortedCalls(items: seq<JobState>, r: Replies, i: nat)
    requires IsAborted(items) && i < |Round(items, r).calls|
    ensures Quiet(Round(items, r).calls[i])
  {
  }

  // Once an abort is stored, even before startJob, no round starts an activity or reports
  // anything but an error (or a log line) to the listener, whatever the connector answers.
  lemma AbortIsSticky(run: seq<Step>, r: Replies, c: Call)
    requires IsRun(run) && AbortJob in run && c in Result(After(run), r).calls
    ensures Quiet(c)
  {
    AbortStays(run);
    RecoversLastStored(run);
    ItemsAreFew(After(run).items, LastStored(run));
    NotAborted(After(run).items);
    var calls := Result(After(run), r).calls;
    var i :| 0 <= i < |calls| && calls[i] == c;
    AbortedCalls(After(run).items, r, i);
  }

  function Aborts(run: seq<Step>): nat {
    if run == [] then 0 else Aborts(run[..|run| - 1]) + if run[|run| - 1].AbortJob? then 1 else 0
  }
  function Starts(run: seq<Step>): nat {
    if run == [] then 0 else Starts(run[..|run| - 1]) + if run[|run| - 1].StartJob? then 1 else 0
  }

  // Rounds an aborted job may still have.
  function Potential(run: seq<Step>): int {
    (if After(run).scheduled then 1 else 0)
    + match LastStored(run)
      case Some(Queued(f)) => 30 - f
      case Some(Starting(_, f)) => 100 - f
      case _ => 0
  }

  lemma AbortedRound(items: seq<JobState>, current: Option<JobState>, r: Replies)
    requires Inv(items, current) && IsAborted(items) && Round(items, r).upsert.Some?
    ensures current.Some? && !current.value.Started?
    ensures Round(items, r).upsert.value == WithNewFailure(current.value)
  {
    RecoveredKind(items);
  }

  lemma PotentialRange(run: seq<Step>)
    requires IsRun(run)
    ensures 0 <= Potential(run) <= 101
  {
    RecoversLastStored(run);
    RecoveredKind(After(run).items);
    if LastStored(run).Some? { assert Fits(LastStored(run).value, LastStored(run)); }
  }

  // After an abort only boundedly many rounds follow: at most 101, plus one for every further
  // abortJob and 31 if startJob is still to come.
  lemma {:induction false} AbortedRoundsAreFew(base: seq<Step>, tail: seq<Step>)
    requires IsRun(base + tail) && AbortJob in base
    ensures Rounds(tail) + Potential(base + tail) <= Potential(base) + Aborts(tail) + 31 * Starts(tail)
    ensures IsRun(base) && Rounds(tail) <= 101 + Aborts(tail) + 31 * Starts(tail)
    decreases |tail|
  {
    if tail == [] {
      assert base + tail == base;
      PotentialRange(base);
    } else {
      var t := tail[|tail| - 1];
      var run, front := base + tail, base + tail[..|tail| - 1];
      assert run[..|run| - 1] == front && run[|run| - 1] == t;
      AbortedRoundsAreFew(base, tail[..|tail| - 1]);
      PotentialRange(base);
      PotentialRange(run);
      RecoversLastStored(front);
      if t.RoundStep? {
        AbortStays(front);
        ItemsAreFew(After(front).items, LastStored(front));
        NotAborted(After(front).items);
        if Result(After(front), t.replies).upsert.Some? {
          AbortedRound(After(front).items, LastStored(front), t.replies);
        }
      }
    }
  }
}
