// The per-job status machine QueueImpl keeps on top of the scripts. start and push write
// status keys without consulting the transition table; only addState does.
module QueueStatus {
  import opened Options
  import opened BuildQueue
  import opened QueueScripts

  datatype Status =
    | Queued | Starting | Started | Cancelled | Success | Failure
    | Aborted | Error | Timeout | Conflict | Dependency | Rebased

  function Transitions(s: Status): set<Status> {
    match s
    case Queued => {Starting, Cancelled}
    case Starting => {Rebased, Conflict, Aborted, Started, Error, Timeout, Failure, Dependency}
    case Started => {Aborted, Failure, Success, Error, Timeout}
    case _ => {}
  }

  predicate IsTerminal(s: Status) { Transitions(s) == {} }
  predicate IsValid(from: Status, to: Status) { to in Transitions(from) }

  // The states BuildSystemImpl passes to addState.
  predicate IsSent(s: Status) {
    s in {Started, Error, Failure, Aborted, Success, Rebased, Conflict}
  }

  // Per job, every status ever written to its key, oldest first.
  type Log = map<Job, seq<Status>>

  datatype System = System(queue: State, log: Log)

  const IDLE := System(EMPTY, map[])

  predicate Known(log: Log, j: Job) { j in log && log[j] != [] }

  function Current(log: Log, j: Job): Status
    requires Known(log, j)
  {
    log[j][|log[j]| - 1]
  }

  // ---------------------------------------------------------------- the three calls

  function Write(log: Log, s: Status, j: Job): Log {
    log[j := (if j in log then log[j] else []) + [s]]
  }

  function WriteAll(log: Log, s: Status, jobs: seq<Job>): Log {
    if jobs == [] then log else Write(WriteAll(log, s, jobs[..|jobs| - 1]), s, jobs[|jobs| - 1])
  }

  function WriteIf(log: Log, s: Status, j: Option<Job>): Log {
    if j.Some? then Write(log, s, j.value) else log
  }

  function AfterPush(log: Log, job: Job, cancel: Option<Job>, abort: Option<Job>): Log {
    WriteIf(WriteIf(Write(log, Queued, job), Aborted, abort), Cancelled, cancel)
  }

  function DoPush(m: System, job: Job, score: int): System {
    var cancel, abort := Superseded(m.queue, job), Interrupted(m.queue, job);
    System(Next(m.queue, Push(job, score, cancel, abort)), AfterPush(m.log, job, cancel, abort))
  }

  function DoStart(m: System, jobs: seq<Job>): System {
    System(TakeAll(m.queue, jobs), WriteAll(m.log, Starting, jobs))
  }

  // addState rejects an unknown job and an invalid transition without writing anything.
  predicate Accepts(m: System, job: Job, s: Status) {
    Known(m.log, job) && IsValid(Current(m.log, job), s)
  }

  function DoAddState(m: System, job: Job, s: Status): System {
    if !Accepts(m, job, s) then m
    else if IsTerminal(s) then System(Next(m.queue, Complete(job, IsActive(m.queue, job))), Write(m.log, s, job))
    else m.(log := Write(m.log, s, job))
  }

  predicate IsActive(q: State, job: Job) { job.queue in q.active && q.active[job.queue] == job }
  predicate IsWaiting(q: State, job: Job) { job.Place() in q.waiting && q.waiting[job.Place()].job == job }

  // ---------------------------------------------------------------- what the status says

  predicate Matches(m: System, j: Job)
    requires Known(m.log, j)
  {
    match Current(m.log, j)
    case Queued => IsWaiting(m.queue, j) && !IsActive(m.queue, j)
    case Starting => IsActive(m.queue, j) && !IsWaiting(m.queue, j)
    case Started => IsActive(m.queue, j) && !IsWaiting(m.queue, j)
    case _ => !IsWaiting(m.queue, j) && !IsActive(m.queue, j)
  }

  // Waiting means QUEUED, active means STARTING or STARTED, gone means terminal.
  ghost predicate Coupled(m: System) {
    && Inv(m.queue)
    && (forall j | j in m.log :: Known(m.log, j) && Matches(m, j))
    && (forall j | IsWaiting(m.queue, j) :: j in m.log)
    && (forall j | IsActive(m.queue, j) :: j in m.log)
  }

  predicate IsPath(p: seq<Status>) {
    && p != [] && p[0] == Queued
    && forall i | 0 < i < |p| :: IsValid(p[i - 1], p[i])
  }

  ghost predicate AllPaths(m: System) { forall j | j in m.log :: IsPath(m.log[j]) }

  // ---------------------------------------------------------------- each call keeps it

  // A push keeps the meaning of all statuses exactly when its key is not waiting or active
  // already: a live key would be cancelled or aborted while it waits.
  lemma PushKeepsCoupling(m: System, job: Job, score: int)
    requires Coupled(m)
    ensures Coupled(DoPush(m, job, score)) <==> !IsWaiting(m.queue, job) && !IsActive(m.queue, job)
  {
    var n := DoPush(m, job, score);
    if IsWaiting(m.queue, job) || IsActive(m.queue, job) {
      assert Known(n.log, job) && IsWaiting(n.queue, job) && Current(n.log, job) in {Cancelled, Aborted};
      assert !Matches(n, job);
    } else {
      forall j | j in n.log ensures Known(n.log, j) && Matches(n, j) { PushedMatches(m, job, score, j); }
    }
  }

  lemma PushedMatches(m: System, job: Job, score: int, j: Job)
    requires Coupled(m) && !IsWaiting(m.queue, job) && !IsActive(m.queue, job)
    requires j in DoPush(m, job, score).log
    ensures Known(DoPush(m, job, score).log, j) && Matches(DoPush(m, job, score), j)
  {
    if j != job { assert j in m.log && Matches(m, j); }
  }

  // The smallest such case: a waiting key pushed again is CANCELLED although it waits.
  lemma RepushCancelsItself()
    ensures var j := Job(1, 2, 3);
            var m := DoPush(DoPush(IDLE, j, 0), j, 1);
            Known(m.log, j) && IsWaiting(m.queue, j) && Current(m.log, j) == Cancelled
  {
    var j := Job(1, 2, 3);
    var m := DoPush(IDLE, j, 0);
    assert Superseded(m.queue, j) == Some(j);
  }

  // It keeps all histories paths exactly when the key is new.
  lemma PushKeepsPaths(m: System, job: Job, score: int)
    requires Coupled(m) && AllPaths(m)
    ensures AllPaths(DoPush(m, job, score)) <==> job !in m.log
  {
    var n := DoPush(m, job, score);
    if job in m.log {
      var k := |m.log[job]|;
      assert n.log[job][k] == Queued && n.log[job][k - 1] == Current(m.log, job);
      assert !IsValid(Current(m.log, job), Queued);
    } else {
      forall j | j in n.log ensures IsPath(n.log[j]) { PushedPath(m, job, score, j); }
    }
  }

  lemma PushedPath(m: System, job: Job, score: int, j: Job)
    requires Coupled(m) && AllPaths(m) && job !in m.log && j in DoPush(m, job, score).log
    ensures IsPath(DoPush(m, job, score).log[j])
  {
    if j != job { assert Matches(m, j) && IsPath(m.log[j]); }
  }

  lemma StartKeepsAll(m: System, job: Job)
    requires Coupled(m) && AllPaths(m) && Enabled(m.queue, Take(job))
    ensures Coupled(System(Next(m.queue, Take(job)), Write(m.log, Starting, job)))
    ensures AllPaths(System(Next(m.queue, Take(job)), Write(m.log, Starting, job)))
  {
    var n := System(Next(m.queue, Take(job)), Write(m.log, Starting, job));
    assert IsWaiting(m.queue, job) && Current(m.log, job) == Queued;
    forall j | j in n.log ensures Known(n.log, j) && Matches(n, j) && IsPath(n.log[j]) {
      assert Matches(m, j) && IsPath(m.log[j]);
    }
  }

  lemma {:induction false} StartsKeepAll(m: System, jobs: seq<Job>)
    requires Coupled(m) && AllPaths(m) && CanTake(m.queue, jobs)
    ensures Coupled(DoStart(m, jobs)) && AllPaths(DoStart(m, jobs))
  {
    if jobs != [] {
      StartsKeepAll(m, jobs[..|jobs| - 1]);
      StartKeepsAll(DoStart(m, jobs[..|jobs| - 1]), jobs[|jobs| - 1]);
    }
  }

  // addState keeps the meaning of all statuses, except when it is used to move a waiting job.
  lemma AddStateKeepsCoupling(m: System, job: Job, s: Status)
    requires Coupled(m)
    ensures Coupled(DoAddState(m, job, s))
       <==> !(job in m.log && Current(m.log, job) == Queued && s in {Starting, Cancelled})
  {
    var n := DoAddState(m, job, s);
    if Accepts(m, job, s) {
      assert Matches(m, job);
      if Current(m.log, job) == Queued {
        assert Known(n.log, job) && !Matches(n, job);
      } else {
        forall j | j in n.log ensures Known(n.log, j) && Matches(n, j) { StatedMatches(m, job, s, j); }
        assert Inv(n.queue);
      }
    }
  }

  lemma StatedMatches(m: System, job: Job, s: Status, j: Job)
    requires Coupled(m) && Accepts(m, job, s) && Current(m.log, job) != Queued && j in m.log
    ensures Known(DoAddState(m, job, s).log, j) && Matches(DoAddState(m, job, s), j)
  {
    assert Matches(m, job) && Matches(m, j);
  }

  lemma AddStateKeepsPaths(m: System, job: Job, s: Status)
    requires Coupled(m) && AllPaths(m)
    ensures AllPaths(DoAddState(m, job, s))
  {
  }

  // A reported state is accepted exactly when it is a valid move of an active job; if it is
  // terminal the script finds the job and frees its queue; otherwise nothing changes at all,
  // so a stale callback never frees the slot of a newer job.
  lemma ReportedState(m: System, job: Job, s: Status)
    requires Coupled(m) && IsSent(s)
    ensures Accepts(m, job, s) ==> IsActive(m.queue, job)
    ensures Accepts(m, job, s) && IsTerminal(s) ==>
              DoAddState(m, job, s).queue == m.queue.(active := m.queue.active - {job.queue})
    ensures Accepts(m, job, s) && !IsTerminal(s) ==> DoAddState(m, job, s).queue == m.queue
    ensures !IsActive(m.queue, job) ==> DoAddState(m, job, s) == m
  {
    if Known(m.log, job) { assert Matches(m, job); }
  }

  // ---------------------------------------------------------------- all runs

  datatype Call = PushCall(job: Job, score: int) | StartCall(jobs: seq<Job>) | StateCall(job: Job, status: Status)

  // Pushed keys are new; reported states are the ones the build system sends.
  predicate Allowed(m: System, c: Call) {
    match c
    case PushCall(job, _) => job !in m.log
    case StartCall(jobs) => CanTake(m.queue, jobs)
    case StateCall(_, s) => IsSent(s)
  }

  function Do(m: System, c: Call): System {
    match c
    case PushCall(job, score) => DoPush(m, job, score)
    case StartCall(jobs) => DoStart(m, jobs)
    case StateCall(job, s) => DoAddState(m, job, s)
  }

  predicate AreCalls(calls: seq<Call>) {
    calls == [] || (AreCalls(calls[..|calls| - 1]) && Allowed(DoAll(calls[..|calls| - 1]), calls[|calls| - 1]))
  }

  function DoAll(calls: seq<Call>): System {
    if calls == [] then IDLE else Do(DoAll(calls[..|calls| - 1]), calls[|calls| - 1])
  }

  lemma {:induction false} EveryRunIsCoupled(calls: seq<Call>)
    requires AreCalls(calls)
    ensures Coupled(DoAll(calls)) && AllPaths(DoAll(calls))
  {
    if calls != [] {
      var m, c := DoAll(calls[..|calls| - 1]), calls[|calls| - 1];
      EveryRunIsCoupled(calls[..|calls| - 1]);
      match c
      case PushCall(job, score) => PushKeepsCoupling(m, job, score); PushKeepsPaths(m, job, score);
      case StartCall(jobs) => StartsKeepAll(m, jobs);
      case StateCall(job, s) => AddStateKeepsCoupling(m, job, s); AddStateKeepsPaths(m, job, s);
    }
  }

  // In every run: a job in STARTING accepts STARTED and all outcomes but SUCCESS, one in STARTED all
  // outcomes a build can have; an accepted outcome is written and frees the slot, and everything
  // else is rejected without effect.
  lemma ActiveAccepts(calls: seq<Call>, job: Job, s: Status)
    requires AreCalls(calls) && IsActive(DoAll(calls).queue, job)
    ensures var m := DoAll(calls);
            var n := Do(m, StateCall(job, s));
            && Known(m.log, job) && Current(m.log, job) in {Starting, Started}
            && (if (Current(m.log, job) == Starting
                    && s in {Started, Error, Failure, Aborted, Rebased, Conflict, Timeout, Dependency})
                   || (Current(m.log, job) == Started && s in {Error, Failure, Aborted, Success, Timeout})
                then && n.log == m.log[job := m.log[job] + [s]]
                     && n.queue == (if s == Started then m.queue else m.queue.(active := m.queue.active - {job.queue}))
                else n == m)
  {
    EveryRunIsCoupled(calls);
    assert Matches(DoAll(calls), job);
  }

  // So a started job that was rebased, is in conflict, or ended in any other way leaves its queue
  // startable whenever another ref waits there.
  lemma EndedJobFreesQueue(calls: seq<Call>, job: Job, s: Status, waiting: Slot)
    requires AreCalls(calls) && IsActive(DoAll(calls).queue, job)
    requires || (Previous(DoAll(calls).log, job) == Some(Starting) && s in {Error, Failure, Aborted, Rebased, Conflict})
             || (Previous(DoAll(calls).log, job) == Some(Started) && s in {Error, Failure, Aborted, Success})
    requires waiting in DoAll(calls).queue.waiting && waiting.queue == job.queue
    ensures job.queue in Startable(Do(DoAll(calls), StateCall(job, s)).queue)
  {
    ActiveAccepts(calls, job, s);
  }

  // A push makes its job QUEUED, the waiting job it supersedes CANCELLED and the active job of its
  // ref ABORTED, and no other job's status changes.
  lemma PushWrites(m: System, job: Job, score: int, j: Job)
    requires Coupled(m) && job !in m.log
    ensures var n := DoPush(m, job, score);
            && Known(n.log, job) && n.log[job] == [Queued]
            && (Known(m.log, j) ==>
                n.log[j] == m.log[j]
                            + if IsWaiting(m.queue, j) && j.Place() == job.Place() then [Cancelled]
                              else if IsActive(m.queue, j) && j.Place() == job.Place() then [Aborted]
                              else [])
            && (j !in m.log && j != job ==> j !in n.log)
  {
    if j in m.log { assert Matches(m, j); }
    var cancel, abort := Superseded(m.queue, job), Interrupted(m.queue, job);
    if cancel.Some? { assert IsWaiting(m.queue, cancel.value); }
    if abort.Some? { assert IsActive(m.queue, abort.value) && abort.value in m.log; }
  }

  // ---------------------------------------------------------------- runs with repeated keys

  // Allowed but for keys that may have been pushed before.
  predicate Possible(m: System, c: Call) { c.PushCall? || Allowed(m, c) }

  predicate ArePossible(calls: seq<Call>) {
    calls == [] || (ArePossible(calls[..|calls| - 1]) && Possible(DoAll(calls[..|calls| - 1]), calls[|calls| - 1]))
  }

  // Histories only grow.
  ghost predicate Grows(before: Log, after: Log) {
    forall j | j in before && before[j] != [] :: j in after && before[j] <= after[j]
  }

  lemma {:induction false} WritesGrow(log: Log, s: Status, jobs: seq<Job>)
    ensures Grows(log, WriteAll(log, s, jobs))
  {
    if jobs != [] { WritesGrow(log, s, jobs[..|jobs| - 1]); }
  }

  lemma PushGrows(log: Log, job: Job, cancel: Option<Job>, abort: Option<Job>)
    ensures Grows(log, AfterPush(log, job, cancel, abort))
  {
    var pushed := Write(log, Queued, job);
    var aborted := WriteIf(pushed, Aborted, abort);
    assert Grows(log, pushed) && Grows(pushed, aborted);
    assert Grows(aborted, WriteIf(aborted, Cancelled, cancel));
  }

  lemma CallGrows(m: System, c: Call)
    ensures Grows(m.log, Do(m, c).log)
  {
    match c
    case PushCall(job, _) => PushGrows(m.log, job, Superseded(m.queue, job), Interrupted(m.queue, job));
    case StartCall(jobs) => WritesGrow(m.log, Starting, jobs);
    case StateCall(_, _) =>
  }

  ghost predicate AllKnown(log: Log) { forall j | j in log :: log[j] != [] }

  lemma {:induction false} WritesKnown(log: Log, s: Status, jobs: seq<Job>)
    requires AllKnown(log)
    ensures AllKnown(WriteAll(log, s, jobs))
  {
    if jobs != [] { WritesKnown(log, s, jobs[..|jobs| - 1]); }
  }

  lemma {:induction false} RunKnown(calls: seq<Call>)
    ensures AllKnown(DoAll(calls).log)
  {
    if calls != [] {
      var m, c := DoAll(calls[..|calls| - 1]), calls[|calls| - 1];
      RunKnown(calls[..|calls| - 1]);
      if c.StartCall? { WritesKnown(m.log, Starting, c.jobs); }
    }
  }

  lemma PathsWerePaths(m: System, c: Call)
    requires AllKnown(m.log) && AllPaths(Do(m, c))
    ensures AllPaths(m)
  {
    CallGrows(m, c);
    forall j | j in m.log ensures IsPath(m.log[j]) {
      var p, q := m.log[j], Do(m, c).log[j];
      assert IsPath(q) && p <= q;
      assert forall i | 0 <= i < |p| :: p[i] == q[i];
    }
  }

  // In a run in which keys may repeat, all histories are paths exactly when no key did.
  lemma {:induction false} PathsIffNewKeys(calls: seq<Call>)
    requires ArePossible(calls)
    ensures AllPaths(DoAll(calls)) <==> AreCalls(calls)
  {
    if AreCalls(calls) {
      EveryRunIsCoupled(calls);
    } else if AllPaths(DoAll(calls)) {
      var front, c := calls[..|calls| - 1], calls[|calls| - 1];
      RunKnown(front);
      PathsWerePaths(DoAll(front), c);
      PathsIffNewKeys(front);
      EveryRunIsCoupled(front);
      if c.PushCall? { PushKeepsPaths(DoAll(front), c.job, c.score); }
    }
  }

  lemma AppendCall(calls: seq<Call>, c: Call)
    ensures DoAll(calls + [c]) == Do(DoAll(calls), c)
    ensures AreCalls(calls + [c]) <==> AreCalls(calls) && Allowed(DoAll(calls), c)
  {
    assert (calls + [c])[..|calls|] == calls;
  }

  // ---------------------------------------------------------------- what the listener hears

  // onQueueTransition: the job, its new status and the one before.
  datatype Transition = Transition(job: Job, status: Status, previous: Option<Status>)

  function Previous(log: Log, j: Job): Option<Status> { if Known(log, j) then Some(Current(log, j)) else None }

  function Heard(log: Log, s: Status, jobs: seq<Job>): seq<Transition> {
    if jobs == [] then []
    else
      var front, j := jobs[..|jobs| - 1], jobs[|jobs| - 1];
      Heard(log, s, front) + [Transition(j, s, Previous(WriteAll(log, s, front), j))]
  }

  function HeardIf(log: Log, s: Status, j: Option<Job>): seq<Transition> {
    if j.Some? then [Transition(j.value, s, Previous(log, j.value))] else []
  }

  function HeardPush(log: Log, job: Job, cancel: Option<Job>, abort: Option<Job>): seq<Transition> {
    var pushed := Write(log, Queued, job);
    HeardIf(log, Queued, Some(job)) + HeardIf(pushed, Aborted, abort)
    + HeardIf(WriteIf(pushed, Aborted, abort), Cancelled, cancel)
  }

  function HeardBy(m: System, c: Call): seq<Transition> {
    match c
    case PushCall(job, _) => HeardPush(m.log, job, Superseded(m.queue, job), Interrupted(m.queue, job))
    case StartCall(jobs) => Heard(m.log, Starting, jobs)
    case StateCall(job, s) => if Accepts(m, job, s) then [Transition(job, s, Previous(m.log, job))] else []
  }

  // The statuses heard for one job, in order.
  function HeardFor(heard: seq<Transition>, j: Job): seq<Status> {
    if heard == [] then []
    else
      var t := heard[|heard| - 1];
      HeardFor(heard[..|heard| - 1], j) + if t.job == j then [t.status] else []
  }

  function LogOf(log: Log, j: Job): seq<Status> { if j in log then log[j] else [] }

  lemma {:induction false} HeardForBoth(a: seq<Transition>, b: seq<Transition>, j: Job)
    ensures HeardFor(a + b, j) == HeardFor(a, j) + HeardFor(b, j)
  {
    if b == [] {
      assert a + b == a;
    } else {
      assert (a + b)[..|a + b| - 1] == a + b[..|b| - 1];
      HeardForBoth(a, b[..|b| - 1], j);
    }
  }

  lemma HeardForOne(t: Transition, j: Job)
    ensures HeardFor([t], j) == if t.job == j then [t.status] else []
  {
    assert [t][..0] == [];
  }

  lemma HeardIfAll(log: Log, s: Status, job: Option<Job>, j: Job)
    ensures LogOf(WriteIf(log, s, job), j) == LogOf(log, j) + HeardFor(HeardIf(log, s, job), j)
  {
    if job.Some? { HeardForOne(Transition(job.value, s, Previous(log, job.value)), j); }
  }

  lemma HeardOneMore(log: Log, s: Status, last: Job, heard: seq<Transition>, j: Job)
    ensures var t := Transition(last, s, Previous(log, last));
            && HeardFor(heard + [t], j) == HeardFor(heard, j) + (if last == j then [s] else [])
            && LogOf(Write(log, s, last), j) == LogOf(log, j) + (if last == j then [s] else [])
  {
    var t := Transition(last, s, Previous(log, last));
    assert (heard + [t])[..|heard|] == heard;
  }

  lemma {:induction false} HeardAll(log: Log, s: Status, jobs: seq<Job>, j: Job)
    ensures LogOf(WriteAll(log, s, jobs), j) == LogOf(log, j) + HeardFor(Heard(log, s, jobs), j)
  {
    if jobs != [] {
      var front, last := jobs[..|jobs| - 1], jobs[|jobs| - 1];
      HeardAll(log, s, front, j);
      HeardOneMore(WriteAll(log, s, front), s, last, Heard(log, s, front), j);
    }
  }

  lemma HeardPushAll(log: Log, job: Job, cancel: Option<Job>, abort: Option<Job>, j: Job)
    ensures LogOf(AfterPush(log, job, cancel, abort), j)
         == LogOf(log, j) + HeardFor(HeardPush(log, job, cancel, abort), j)
  {
    var pushed := Write(log, Queued, job);
    var aborted := WriteIf(pushed, Aborted, abort);
    var a, b := HeardIf(log, Queued, Some(job)), HeardIf(pushed, Aborted, abort);
    var c := HeardIf(aborted, Cancelled, cancel);
    HeardIfAll(log, Queued, Some(job), j);
    HeardIfAll(pushed, Aborted, abort, j);
    HeardIfAll(aborted, Cancelled, cancel, j);
    HeardForBoth(a, b, j);
    HeardForBoth(a + b, c, j);
  }

  // The listener hears of exactly the statuses that are written, in their order.
  lemma HeardIsWritten(m: System, c: Call, j: Job)
    ensures LogOf(Do(m, c).log, j) == LogOf(m.log, j) + HeardFor(HeardBy(m, c), j)
  {
    match c
    case PushCall(job, _) => HeardPushAll(m.log, job, Superseded(m.queue, job), Interrupted(m.queue, job), j);
    case StartCall(jobs) => HeardAll(m.log, Starting, jobs, j);
    case StateCall(job, s) =>
      if Accepts(m, job, s) { HeardForOne(Transition(job, s, Previous(m.log, job)), j); }
  }

  // A new job is QUEUED; any other transition is one of the table.
  predicate IsLegal(t: Transition) {
    match t.previous
    case None => t.status == Queued
    case Some(p) => IsValid(p, t.status)
  }

  // A status written to a key that ends with legal histories was a legal transition.
  lemma WriteIsLegal(log: Log, s: Status, j: Job)
    requires (j in log ==> log[j] != []) && IsPath(Write(log, s, j)[j])
    ensures IsLegal(Transition(j, s, Previous(log, j)))
  {
    var p := Write(log, s, j)[j];
    if j in log { assert p[|p| - 2] == Current(log, j) && p[|p| - 1] == s; }
  }

  lemma {:induction false} StartsAreLegal(m: System, jobs: seq<Job>, i: nat)
    requires Coupled(m) && AllPaths(m) && CanTake(m.queue, jobs) && i < |jobs|
    ensures |Heard(m.log, Starting, jobs)| == |jobs| && IsLegal(Heard(m.log, Starting, jobs)[i])
  {
    var front, j := jobs[..|jobs| - 1], jobs[|jobs| - 1];
    StartsKeepAll(m, front);
    StartsKeepAll(m, jobs);
    if front != [] { StartsAreLegal(m, front, if i < |front| then i else 0); }
    if i == |front| { WriteIsLegal(WriteAll(m.log, Starting, front), Starting, j); }
  }

  lemma PushIsLegal(m: System, job: Job, score: int, i: nat)
    requires Coupled(m) && AllPaths(m) && job !in m.log && i < |HeardBy(m, PushCall(job, score))|
    ensures IsLegal(HeardBy(m, PushCall(job, score))[i])
  {
    var cancel, abort := Superseded(m.queue, job), Interrupted(m.queue, job);
    if cancel.Some? { assert IsWaiting(m.queue, cancel.value) && Current(m.log, cancel.value) == Queued; }
    if abort.Some? { assert IsActive(m.queue, abort.value) && Matches(m, abort.value); }
    assert cancel.None? || abort.None?;
  }

  // In every run every transition the listener hears of is legal.
  lemma HeardIsLegal(calls: seq<Call>, c: Call, i: nat)
    requires AreCalls(calls) && Allowed(DoAll(calls), c) && i < |HeardBy(DoAll(calls), c)|
    ensures IsLegal(HeardBy(DoAll(calls), c)[i])
  {
    var m := DoAll(calls);
    EveryRunIsCoupled(calls);
    match c
    case PushCall(job, score) => PushIsLegal(m, job, score, i);
    case StartCall(jobs) =>
      if jobs != [] { StartsAreLegal(m, jobs, if i < |jobs| then i else 0); }
    case StateCall(job, s) =>
  }

  // ---------------------------------------------------------------- QueueImpl

  // A status key holds the last status written to it.
  ghost predicate Mirrors(status: map<Job, Status>, log: Log) {
    status.Keys == log.Keys && forall j | j in log :: Known(log, j) && status[j] == Current(log, j)
  }

  lemma WriteMirrors(status: map<Job, Status>, log: Log, s: Status, j: Job)
    requires Mirrors(status, log)
    ensures Mirrors(status[j := s], Write(log, s, j))
    ensures Previous(log, j) == if j in status then Some(status[j]) else None
  {
  }

  lemma WriteOneMore(log: Log, s: Status, jobs: seq<Job>, i: nat)
    requires i < |jobs|
    ensures WriteAll(log, s, jobs[..i + 1]) == Write(WriteAll(log, s, jobs[..i]), s, jobs[i])
    ensures Heard(log, s, jobs[..i + 1])
         == Heard(log, s, jobs[..i]) + [Transition(jobs[i], s, Previous(WriteAll(log, s, jobs[..i]), jobs[i]))]
  {
    assert jobs[..i + 1][..i] == jobs[..i];
  }

  lemma WriteOne(log: Log, s: Status, j: Job)
    ensures WriteAll(log, s, [j]) == Write(log, s, j) && Heard(log, s, [j]) == [Transition(j, s, Previous(log, j))]
  {
    assert [j][..0] == [];
  }

  // What addState does, said by the status before.
  lemma StateCallMeans(m: System, job: Job, s: Status)
    ensures var n := DoAddState(m, job, s);
            && (Accepts(m, job, s) <==>
                || (Previous(m.log, job) == Some(Queued) && s in {Starting, Cancelled})
                || (Previous(m.log, job) == Some(Starting)
                    && s in {Started, Error, Failure, Aborted, Rebased, Conflict, Timeout, Dependency})
                || (Previous(m.log, job) == Some(Started) && s in {Error, Failure, Aborted, Success, Timeout}))
            && (Accepts(m, job, s) ==>
                Previous(n.log, job) == Some(s) && IsTerminal(s) == (s !in {Queued, Starting, Started}))
            && (Accepts(m, job, s) && s !in {Queued, Starting, Started} ==> !IsActive(n.queue, job))
            && (!Accepts(m, job, s) ==> n == m)
  {
  }

  class QueueImpl {
    const redis: QueueRedis
    var status: map<Job, Status>   // queue:status:<job>
    ghost var log: Log
    ghost var calls: seq<Call>     // what was asked of this queue so far

    ghost predicate Valid()
      reads this, redis
    {
      redis.Valid() && Mirrors(status, log) && Model() == DoAll(calls)
    }

    ghost function Model(): System
      reads this, redis
    {
      System(After(redis.history), log)
    }

    constructor ()
      ensures Valid() && fresh(redis) && calls == []
    {
      redis := new QueueRedis();
      status, log, calls := map[], map[], [];
    }

    // As long as keys were new and states were ones the build system sends, statuses are true
    // and histories legal.
    lemma StatusesAreTrue()
      requires Valid() && AreCalls(calls)
      ensures Coupled(Model()) && AllPaths(Model())
    {
      EveryRunIsCoupled(calls);
    }

    method SetState(s: Status, jobs: seq<Job>) returns (heard: seq<Transition>)
      requires Mirrors(status, log)
      modifies this`status, this`log
      ensures Mirrors(status, log) && log == WriteAll(old(log), s, jobs)
      ensures heard == Heard(old(log), s, jobs)
    {
      heard := [];
      ghost var before := log;
      for i := 0 to |jobs|
        invariant Mirrors(status, log) && log == WriteAll(before, s, jobs[..i])
        invariant heard == Heard(before, s, jobs[..i])
      {
        WriteMirrors(status, log, s, jobs[i]);
        WriteOneMore(before, s, jobs, i);
        heard := heard + [Transition(jobs[i], s, if jobs[i] in status then Some(status[jobs[i]]) else None)];
        status := status[jobs[i] := s];
        log := Write(log, s, jobs[i]);
      }
      assert jobs[..|jobs|] == jobs;
    }

    method Start(maxCount: int) returns (jobs: seq<Job>, heard: seq<Transition>)
      requires Valid()
      modifies this`status, this`log, this`calls, redis
      ensures Valid() && calls == old(calls) + [StartCall(jobs)]
      ensures IsStart(old(Model().queue), if maxCount > 0 then maxCount else 0, jobs)
      ensures heard == HeardBy(old(Model()), StartCall(jobs))
    {
      ghost var h := redis.history;
      jobs := redis.Start(maxCount);
      TakesAreARun(h, jobs);
      heard := SetState(Starting, jobs);
      AppendCall(calls, StartCall(jobs));
      calls := calls + [StartCall(jobs)];
    }

    method SetIf(s: Status, job: Option<Job>) returns (heard: seq<Transition>)
      requires Mirrors(status, log)
      modifies this`status, this`log
      ensures Mirrors(status, log) && log == WriteIf(old(log), s, job) && heard == HeardIf(old(log), s, job)
    {
      heard := [];
      if job.Some? {
        WriteOne(log, s, job.value);
        heard := SetState(s, [job.value]);
      }
    }

    // The status writes of push.
    method Pushed(job: Job, cancel: Option<Job>, abort: Option<Job>) returns (heard: seq<Transition>)
      requires Mirrors(status, log)
      modifies this`status, this`log
      ensures Mirrors(status, log) && log == AfterPush(old(log), job, cancel, abort)
      ensures heard == HeardPush(old(log), job, cancel, abort)
    {
      var queued := SetIf(Queued, Some(job));
      var aborted := SetIf(Aborted, abort);
      var cancelled := SetIf(Cancelled, cancel);
      heard := queued + aborted + cancelled;
    }

    method Push(job: Job, score: int) returns (heard: seq<Transition>)
      requires Valid()
      modifies this`status, this`log, this`calls, redis
      ensures Valid() && calls == old(calls) + [PushCall(job, score)]
      ensures heard == HeardBy(old(Model()), PushCall(job, score))
    {
      ghost var h := redis.history;
      var size, cancel, abort := redis.Push(job, score);
      PushIsNext(h, job, score, cancel, abort);
      heard := Pushed(job, cancel, abort);
      AppendCall(calls, PushCall(job, score));
      calls := calls + [PushCall(job, score)];
    }

    method GetState(job: Job) returns (s: Option<Status>)
      requires Valid()
      ensures s == Previous(log, job)
    {
      s := if job in status then Some(status[job]) else None;
    }

    // None: the returned promise is rejected. Some(b): resolved with b.
    method AddState(job: Job, newState: Status) returns (r: Option<bool>, heard: seq<Transition>)
      requires Valid()
      modifies this`status, this`log, this`calls, redis
      ensures Valid() && calls == old(calls) + [StateCall(job, newState)]
      ensures r == if Accepts(old(Model()), job, newState) then Some(IsTerminal(newState)) else None
      ensures r.Some? <==>
                || (Previous(old(log), job) == Some(Queued) && newState in {Starting, Cancelled})
                || (Previous(old(log), job) == Some(Starting)
                    && newState in {Started, Error, Failure, Aborted, Rebased, Conflict, Timeout, Dependency})
                || (Previous(old(log), job) == Some(Started) && newState in {Error, Failure, Aborted, Success, Timeout})
      ensures r.Some? ==> Previous(log, job) == Some(newState) && r.value == (newState !in {Queued, Starting, Started})
      ensures r == Some(true) ==> !IsActive(Model().queue, job)
      ensures r.None? ==> log == old(log) && Model().queue == old(Model().queue)
      ensures heard == HeardBy(old(Model()), StateCall(job, newState))
    {
      var state := GetState(job);
      StateCallMeans(Model(), job, newState);
      AppendCall(calls, StateCall(job, newState));
      calls := calls + [StateCall(job, newState)];
      if state.Some? && IsValid(state.value, newState) {
        ghost var h := redis.history;
        if IsTerminal(newState) {
          var marked := redis.Complete(job);
          CompleteIsNext(h, job, marked);
        }
        WriteOne(log, newState, job);
        heard := SetState(newState, [job]);
        r := Some(IsTerminal(newState));
      } else {
        r, heard := None, [];
      }
    }
  }

  lemma LastStep(h: seq<Event>, e: Event)
    requires IsRun(h + [e])
    ensures Enabled(After(h), e) && After(h + [e]) == Next(After(h), e)
  {
    assert (h + [e])[..|h|] == h;
  }

  lemma PushIsNext(h: seq<Event>, job: Job, score: int, cancel: Option<Job>, abort: Option<Job>)
    requires IsRun(h + [Push(job, score, cancel, abort)])
    ensures cancel == Superseded(After(h), job) && abort == Interrupted(After(h), job)
    ensures After(h + [Push(job, score, cancel, abort)]) == Next(After(h), Push(job, score, cancel, abort))
  {
    LastStep(h, Push(job, score, cancel, abort));
  }

  lemma CompleteIsNext(h: seq<Event>, job: Job, ok: bool)
    requires IsRun(h + [Complete(job, ok)])
    ensures ok == IsActive(After(h), job) && After(h + [Complete(job, ok)]) == Next(After(h), Complete(job, ok))
  {
    LastStep(h, Complete(job, ok));
  }
}
