// The build queue as one simple machine: which job waits in which slot, and which job is
// active on which local queue. The Redis scripts (QueueScripts) refine this machine; every
// property of whole runs is proved here, over traces of the machine's events.
module BuildQueue {
  import opened Options
  import opened SortedSets

  // A job key. `queue` stands for (source, target branch), `ref` for the canonical id.
  datatype Job = Job(queue: Key, ref: Key, sha: Key) {
    function Place(): Slot { Slot(queue, ref) }
  }
  datatype Slot = Slot(queue: Key, ref: Key)
  datatype Waiting = Waiting(score: int, job: Job)
  datatype State = State(waiting: map<Slot, Waiting>, active: map<Key, Job>)

  // What a script call did, with what it reported.
  datatype Event =
    | Push(job: Job, score: int, cancel: Option<Job>, abort: Option<Job>)
    | Take(job: Job)
    | Complete(job: Job, ok: bool)

  const EMPTY := State(map[], map[])

  // ---------------------------------------------------------------- one step

  // Rank inside a local queue: first-push score, then the bytes of the ref.
  predicate Ahead(s: State, a: Slot, b: Slot)
    requires a in s.waiting && b in s.waiting
  {
    s.waiting[a].score < s.waiting[b].score
    || (s.waiting[a].score == s.waiting[b].score && a.ref < b.ref)
  }

  predicate IsFirst(s: State, a: Slot) {
    a in s.waiting
    && forall b | b in s.waiting && b.queue == a.queue && b != a :: Ahead(s, a, b)
  }

  function Superseded(s: State, job: Job): Option<Job> {
    if job.Place() in s.waiting then Some(s.waiting[job.Place()].job) else None
  }

  function Interrupted(s: State, job: Job): Option<Job> {
    if job.queue in s.active && s.active[job.queue].ref == job.ref then Some(s.active[job.queue]) else None
  }

  predicate Enabled(s: State, e: Event) {
    match e
    case Push(job, _, cancel, abort) => cancel == Superseded(s, job) && abort == Interrupted(s, job)
    case Take(job) =>
      job.queue !in s.active && IsFirst(s, job.Place()) && s.waiting[job.Place()].job == job
    case Complete(job, ok) => ok == (job.queue in s.active && s.active[job.queue] == job)
  }

  function Next(s: State, e: Event): State {
    match e
    case Push(job, score, _, abort) =>
      var kept := if job.Place() in s.waiting then s.waiting[job.Place()].score else score;
      State(s.waiting[job.Place() := Waiting(kept, job)],
            if abort.Some? then s.active - {job.queue} else s.active)
    case Take(job) => State(s.waiting - {job.Place()}, s.active[job.queue := job])
    case Complete(job, ok) => if ok then s.(active := s.active - {job.queue}) else s
  }

  // ---------------------------------------------------------------- runs

  predicate IsRun(h: seq<Event>) {
    h == [] || (IsRun(h[..|h| - 1]) && Enabled(After(h[..|h| - 1]), h[|h| - 1]))
  }

  function After(h: seq<Event>): State {
    if h == [] then EMPTY else Next(After(h[..|h| - 1]), h[|h| - 1])
  }

  lemma Extend(h: seq<Event>, e: Event)
    requires IsRun(h) && Enabled(After(h), e)
    ensures IsRun(h + [e]) && After(h + [e]) == Next(After(h), e)
  {
    assert (h + [e])[..|h|] == h;
  }

  lemma {:induction false} Prefix(h: seq<Event>, n: nat)
    requires IsRun(h) && n <= |h|
    ensures IsRun(h[..n])
    ensures n < |h| ==> Enabled(After(h[..n]), h[n])
    ensures n < |h| ==> h[..n + 1][..n] == h[..n] && After(h[..n + 1]) == Next(After(h[..n]), h[n])
  {
    if n == |h| {
      assert h[..n] == h;
    } else {
      var front := h[..|h| - 1];
      Prefix(front, n);
      assert front[..n] == h[..n];
      assert h[..n + 1][..n] == h[..n];
      if n == |h| - 1 { assert front == h[..n]; } else { assert front[n] == h[n]; }
    }
  }

  // ---------------------------------------------------------------- what every run keeps

  // Slots hold jobs of that slot, active entries belong to their queue, and the ref that is
  // being built is never also waiting.
  ghost predicate Placed(waiting: map<Slot, Waiting>) { forall a | a in waiting :: waiting[a].job.Place() == a }

  ghost predicate Inv(s: State) {
    && Placed(s.waiting)
    && (forall q | q in s.active :: s.active[q].queue == q && s.active[q].Place() !in s.waiting)
  }

  lemma {:induction false} RunKeepsInvariant(h: seq<Event>)
    requires IsRun(h)
    ensures Inv(After(h))
  {
    if h != [] { RunKeepsInvariant(h[..|h| - 1]); }
  }

  // A push never reports both a job to cancel and a job to abort.
  lemma PushReportsOne(h: seq<Event>, job: Job, score: int, cancel: Option<Job>, abort: Option<Job>)
    requires IsRun(h) && Enabled(After(h), Push(job, score, cancel, abort))
    ensures cancel.None? || abort.None?
    ensures cancel.Some? ==> cancel.value.Place() == job.Place()
    ensures abort.Some? ==> abort.value.Place() == job.Place()
  {
    RunKeepsInvariant(h);
    var s := After(h);
    if abort.Some? { assert s.active[job.queue].Place() == job.Place(); }
  }

  // ---------------------------------------------------------------- conservation

  function One(b: bool): nat { if b then 1 else 0 }

  function Pushed(e: Event, j: Job): nat { One(e.Push? && e.job == j) }
  function Cancelled(e: Event, j: Job): nat { One(e.Push? && e.cancel == Some(j)) }
  function Aborted(e: Event, j: Job): nat { One(e.Push? && e.abort == Some(j)) }
  function Completed(e: Event, j: Job): nat { One(e.Complete? && e.ok && e.job == j) }

  function Count(h: seq<Event>, f: Event -> nat): nat {
    if h == [] then 0 else Count(h[..|h| - 1], f) + f(h[|h| - 1])
  }

  // How often `j` is held: as the job of its slot, as the active job of its queue.
  function InWaiting(s: State, j: Job): nat {
    One(j.Place() in s.waiting && s.waiting[j.Place()].job == j)
  }
  function InActive(s: State, j: Job): nat { One(j.queue in s.active && s.active[j.queue] == j) }

  // Every push of a job is accounted for exactly once, whether or not keys repeat.
  lemma {:induction false} Conservation(h: seq<Event>, j: Job)
    requires IsRun(h)
    ensures Count(h, e => Pushed(e, j))
         == InWaiting(After(h), j) + InActive(After(h), j)
          + Count(h, e => Cancelled(e, j)) + Count(h, e => Aborted(e, j)) + Count(h, e => Completed(e, j))
    ensures InWaiting(After(h), j) + InActive(After(h), j) <= 1
  {
    RunKeepsInvariant(h);
    if h != [] {
      var front := h[..|h| - 1];
      Conservation(front, j);
      RunKeepsInvariant(front);
      StepConserves(After(front), h[|h| - 1], j);
    }
  }

  lemma StepConserves(s: State, e: Event, j: Job)
    requires Inv(s) && Enabled(s, e)
    ensures Pushed(e, j) + InWaiting(s, j) + InActive(s, j)
         == InWaiting(Next(s, e), j) + InActive(Next(s, e), j)
          + Cancelled(e, j) + Aborted(e, j) + Completed(e, j)
  {
    if e.Push? && e.abort.Some? { assert e.abort.value.Place() == e.job.Place(); }
  }

  // ---------------------------------------------------------------- service order

  predicate PushOn(e: Event, a: Slot) { e.Push? && e.job.Place() == a }
  predicate TakeOn(e: Event, a: Slot) { e.Take? && e.job.Place() == a }

  // No job of the slot is taken from position `from` on.
  predicate NoTake(h: seq<Event>, a: Slot, from: nat) {
    forall k | from <= k < |h| :: !TakeOn(h[k], a)
  }

  // `i` is the first push of the slot since it was last taken (or since the beginning).
  ghost predicate FirstPush(h: seq<Event>, a: Slot, i: nat) {
    && i < |h| && PushOn(h[i], a) && NoTake(h, a, i)
    && forall j | 0 <= j < i && PushOn(h[j], a) :: exists k :: j < k < i && TakeOn(h[k], a)
  }

  // `i` is the latest push of the slot and it has not been taken since.
  ghost predicate LastPush(h: seq<Event>, a: Slot, i: nat) {
    && i < |h| && PushOn(h[i], a) && NoTake(h, a, i)
    && forall j | i < j < |h| :: !PushOn(h[j], a)
  }

  // A slot waits exactly when some push of it was not followed by a take.
  ghost predicate Unserved(h: seq<Event>, a: Slot) {
    exists i: nat :: i < |h| && PushOn(h[i], a) && NoTake(h, a, i)
  }

  lemma {:induction false} WaitingHistory(h: seq<Event>, a: Slot) returns (first: nat, last: nat)
    requires IsRun(h) && a in After(h).waiting
    ensures FirstPush(h, a, first) && h[first].score == After(h).waiting[a].score
    ensures LastPush(h, a, last) && h[last].job == After(h).waiting[a].job
  {
    var n := |h| - 1;
    var front, e := h[..n], h[n];
    assert forall k | 0 <= k < n :: front[k] == h[k];
    if a in After(front).waiting {
      first, last := WaitingHistory(front, a);
      forall j | 0 <= j < first && PushOn(h[j], a) ensures exists k :: j < k < first && TakeOn(h[k], a) {
        assert PushOn(front[j], a);
        var k :| j < k < first && TakeOn(front[k], a);
        assert TakeOn(h[k], a);
      }
      if PushOn(e, a) { last := n; }
    } else {
      first, last := n, n;
      forall j | 0 <= j < n && PushOn(h[j], a) ensures exists k :: j < k < n && TakeOn(h[k], a) {
        var k := ServedAfter(front, a, j);
        assert TakeOn(h[k], a);
      }
    }
  }

  lemma {:induction false} ServedAfter(h: seq<Event>, a: Slot, j: nat) returns (k: nat)
    requires IsRun(h) && a !in After(h).waiting && j < |h| && PushOn(h[j], a)
    ensures j < k < |h| && TakeOn(h[k], a)
  {
    var n := |h| - 1;
    if TakeOn(h[n], a) {
      k := n;
    } else {
      k := ServedAfter(h[..n], a, j);
    }
  }

  lemma WaitsIffUnserved(h: seq<Event>, a: Slot)
    requires IsRun(h)
    ensures a in After(h).waiting <==> Unserved(h, a)
  {
    if a in After(h).waiting {
      var first, last := WaitingHistory(h, a);
    } else if Unserved(h, a) {
      var i: nat :| i < |h| && PushOn(h[i], a) && NoTake(h, a, i);
      var k := ServedAfter(h, a, i);
      assert false;
    }
  }

  // The job handed out is the last one pushed for its ref.
  lemma ServedIsLatest(h: seq<Event>, job: Job) returns (last: nat)
    requires IsRun(h) && Enabled(After(h), Take(job))
    ensures LastPush(h, job.Place(), last) && h[last].job == job
  {
    var first: nat;
    first, last := WaitingHistory(h, job.Place());
  }

  // The (first-push score, bytes) of its ref is least among all refs then waiting on that queue.
  lemma ServedInOrder(h: seq<Event>, job: Job, other: Slot) returns (first: nat, otherFirst: nat)
    requires IsRun(h) && Enabled(After(h), Take(job))
    requires Unserved(h, other) && other.queue == job.queue && other != job.Place()
    ensures FirstPush(h, job.Place(), first) && FirstPush(h, other, otherFirst)
    ensures h[first].score < h[otherFirst].score
         || (h[first].score == h[otherFirst].score && job.ref < other.ref)
  {
    WaitsIffUnserved(h, other);
    var last, otherLast: nat;
    first, last := WaitingHistory(h, job.Place());
    otherFirst, otherLast := WaitingHistory(h, other);
    assert Ahead(After(h), job.Place(), other);
  }

  // ---------------------------------------------------------------- one build per queue

  predicate Releases(e: Event, job: Job) {
    (e.Push? && e.abort == Some(job)) || (e.Complete? && e.ok && e.job == job)
  }

  lemma {:induction false} StaysActive(h: seq<Event>, i: nat, m: nat)
    requires IsRun(h) && i < m <= |h| && h[i].Take?
    requires forall k | i < k < m :: !Releases(h[k], h[i].job)
    ensures h[i].job.queue in After(h[..m]).active && After(h[..m]).active[h[i].job.queue] == h[i].job
  {
    Prefix(h, m - 1);
    if i < m - 1 { StaysActive(h, i, m - 1); }
  }

  // Between two takes on one local queue the earlier job was completed or reported aborted.
  lemma OneAtATime(h: seq<Event>, i: nat, k: nat) returns (m: nat)
    requires IsRun(h) && i < k < |h| && h[i].Take? && h[k].Take? && h[i].job.queue == h[k].job.queue
    ensures i < m < k && Releases(h[m], h[i].job)
  {
    if forall m | i < m < k :: !Releases(h[m], h[i].job) {
      StaysActive(h, i, k);
      Prefix(h, k);
      assert false;
    }
    m :| i < m < k && Releases(h[m], h[i].job);
  }

  // ---------------------------------------------------------------- starting several queues

  function Refs(s: State, q: Key): set<Key> {
    set a | a in s.waiting && a.queue == q :: a.ref
  }

  function Startable(s: State): set<Key> {
    set a | a in s.waiting && a.queue !in s.active :: a.queue
  }

  function Queues(jobs: seq<Job>): set<Key> { set j | j in jobs :: j.queue }

  // The order in which start.lua looks at queues: fewest waiting refs first, then key bytes.
  predicate QueueBefore(s: State, p: Key, q: Key) {
    |Refs(s, p)| < |Refs(s, q)| || (|Refs(s, p)| == |Refs(s, q)| && p < q)
  }

  function Takes(jobs: seq<Job>): seq<Event> {
    if jobs == [] then [] else Takes(jobs[..|jobs| - 1]) + [Take(jobs[|jobs| - 1])]
  }

  predicate CanTake(s: State, jobs: seq<Job>) {
    jobs == [] || (CanTake(s, jobs[..|jobs| - 1]) && Enabled(TakeAll(s, jobs[..|jobs| - 1]), Take(jobs[|jobs| - 1])))
  }

  function TakeAll(s: State, jobs: seq<Job>): State {
    if jobs == [] then s else Next(TakeAll(s, jobs[..|jobs| - 1]), Take(jobs[|jobs| - 1]))
  }

  // As many takes as start(n) makes: min(n, startable).
  predicate Serves(s: State, n: nat, jobs: seq<Job>) {
    CanTake(s, jobs) && |jobs| == if n < |Startable(s)| then n else |Startable(s)|
  }

  // One call of start(n): the queues served are the least startable ones, in order.
  ghost predicate IsStart(s: State, n: nat, jobs: seq<Job>) {
    && Serves(s, n, jobs)
    && Queues(jobs) <= Startable(s)
    && (forall i, j | 0 <= i < j < |jobs| :: QueueBefore(s, jobs[i].queue, jobs[j].queue))
    && (forall p, q | p in Queues(jobs) && q in Startable(s) - Queues(jobs) :: QueueBefore(s, p, q))
  }

  // The take events of one start call extend the run they happen in.
  lemma {:induction false} TakesAreARun(h: seq<Event>, jobs: seq<Job>)
    requires IsRun(h) && CanTake(After(h), jobs)
    ensures IsRun(h + Takes(jobs)) && After(h + Takes(jobs)) == TakeAll(After(h), jobs)
  {
    if jobs == [] {
      assert h + Takes(jobs) == h;
    } else {
      var front, last := jobs[..|jobs| - 1], jobs[|jobs| - 1];
      TakesAreARun(h, front);
      Extend(h + Takes(front), Take(last));
      assert h + Takes(jobs) == h + (Takes(front) + [Take(last)]) == (h + Takes(front)) + [Take(last)];
    }
  }

  lemma {:induction false} TakesUseUpQueues(s: State, jobs: seq<Job>)
    requires CanTake(s, jobs)
    ensures Startable(TakeAll(s, jobs)) == Startable(s) - Queues(jobs)
    ensures Queues(jobs) <= Startable(s) && |Queues(jobs)| == |jobs|
  {
    if jobs != [] {
      var front, last := jobs[..|jobs| - 1], jobs[|jobs| - 1];
      TakesUseUpQueues(s, front);
      TakeUsesUpQueue(TakeAll(s, front), last);
      assert forall j | j in jobs :: j == last || j in front;
      assert Queues(jobs) == Queues(front) + {last.queue};
    }
  }

  lemma TakeUsesUpQueue(s: State, job: Job)
    requires Enabled(s, Take(job))
    ensures Startable(Next(s, Take(job))) == Startable(s) - {job.queue} && job.queue in Startable(s)
  {
  }

  predicate AreStarts(s: State, n: nat, calls: seq<seq<Job>>)
    decreases |calls|
  {
    calls == [] || (Serves(s, n, calls[0]) && AreStarts(TakeAll(s, calls[0]), n, calls[1..]))
  }

  function AfterStarts(s: State, calls: seq<seq<Job>>): State
    decreases |calls|
  {
    if calls == [] then s else AfterStarts(TakeAll(s, calls[0]), calls[1..])
  }

  lemma OneStart(s: State, n: nat, jobs: seq<Job>)
    requires Serves(s, n, jobs)
    ensures |Startable(TakeAll(s, jobs))| == Remaining(|Startable(s)|, n)
  {
    TakesUseUpQueues(s, jobs);
  }

  function Remaining(startable: nat, served: nat): nat {
    if startable <= served then 0 else startable - served
  }

  // n jobs for each of k calls.
  function Served(n: nat, k: nat): nat { if k == 0 then 0 else n + Served(n, k - 1) }

  lemma {:induction false} ServedIsProduct(n: nat, k: nat)
    ensures Served(n, k) == n * k
  {
    if k > 0 {
      ServedIsProduct(n, k - 1);
      assert n * k == n + n * (k - 1);
    }
  }

  lemma {:induction false} StartsServe(s: State, n: nat, calls: seq<seq<Job>>)
    requires AreStarts(s, n, calls)
    ensures |Startable(AfterStarts(s, calls))| == Remaining(|Startable(s)|, Served(n, |calls|))
    decreases |calls|
  {
    if calls != [] {
      OneStart(s, n, calls[0]);
      StartsServe(TakeAll(s, calls[0]), n, calls[1..]);
    }
  }

  // Every call of start(n) with nothing in between uses up n startable queues, so
  // ceil(startable / n) calls reach a state in which nothing is startable.
  lemma RepeatedStarts(s: State, n: nat, calls: seq<seq<Job>>)
    requires AreStarts(s, n, calls)
    ensures |Startable(AfterStarts(s, calls))| == Remaining(|Startable(s)|, n * |calls|)
  {
    StartsServe(s, n, calls);
    ServedIsProduct(n, |calls|);
  }
}
