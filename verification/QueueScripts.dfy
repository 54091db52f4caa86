// The three Lua scripts on the five Redis structures they keep, command by command.
// Each call is atomic. `Waits`, `Runs` and `Counts` are the representation invariant: they say
// which state of the simple machine (BuildQueue) the structures stand for.
module QueueScripts {
  import opened Options
  import opened SortedSets
  import opened BuildQueue

  datatype ActiveHash = ActiveHash(canonical: Key, serialized: Job)

  function Get(queues: map<Key, ZSet>, q: Key): ZSet { if q in queues then queues[q] else map[] }

  // The local queues hold the scores, and the latest-job keys the jobs, of exactly the waiting
  // slots. An empty Redis set does not exist.
  ghost predicate Waits(queues: map<Key, ZSet>, latest: map<Slot, Job>, waiting: map<Slot, Waiting>) {
    && (forall q | q in queues :: queues[q] != map[])
    && latest.Keys == waiting.Keys
    && (forall a | a in waiting ::
          a.ref in Get(queues, a.queue) && waiting[a] == Waiting(Get(queues, a.queue)[a.ref], latest[a]))
    && (forall q, r | q in queues && r in queues[q] :: Slot(q, r) in waiting)
  }

  // Active set and active hashes exist for exactly the active queues.
  ghost predicate Runs(active: ZSet, hashes: map<Key, ActiveHash>, jobs: map<Key, Job>) {
    && active.Keys == hashes.Keys == jobs.Keys
    && forall q | q in jobs :: hashes[q] == ActiveHash(jobs[q].ref, jobs[q])
  }

  // Every ready score is the size of its queue. Inside start, emptied queues keep score 0.
  ghost predicate Counts(ready: ZSet, queues: map<Key, ZSet>) {
    queues.Keys <= ready.Keys && forall q | q in ready :: ready[q] == |Get(queues, q)|
  }

  // ---------------------------------------------------------------- what the commands keep

  // ZADD NX
  function AddIfAbsent(queues: map<Key, ZSet>, q: Key, ref: Key, score: int): map<Key, ZSet> {
    if ref in Get(queues, q) then queues else queues[q := Get(queues, q)[ref := score]]
  }

  function Enqueued(waiting: map<Slot, Waiting>, job: Job, score: int): map<Slot, Waiting> {
    waiting[job.Place() := Waiting(if job.Place() in waiting then waiting[job.Place()].score else score, job)]
  }

  lemma Enqueue(queues: map<Key, ZSet>, latest: map<Slot, Job>, waiting: map<Slot, Waiting>, job: Job, score: int)
    requires Waits(queues, latest, waiting)
    ensures Waits(AddIfAbsent(queues, job.queue, job.ref, score), latest[job.Place() := job],
                  Enqueued(waiting, job, score))
    ensures job.ref in Get(queues, job.queue) <==> job.Place() in latest
  {
    var queues', waiting' := AddIfAbsent(queues, job.queue, job.ref, score), Enqueued(waiting, job, score);
    assert Slot(job.queue, job.ref) == job.Place();
    forall q, r | q in queues' && r in queues'[q] ensures Slot(q, r) in waiting' {
      assert (q == job.queue && r == job.ref) || r in Get(queues, q);
    }
  }

  // ZINCRBY q 1
  function Increment(ready: ZSet, q: Key): ZSet { ready[q := (if q in ready then ready[q] else 0) + 1] }

  lemma Recount(ready: ZSet, queues: map<Key, ZSet>, q: Key, ref: Key, score: int)
    requires Counts(ready, queues) && ready.Keys == queues.Keys && ref !in Get(queues, q)
    ensures Counts(Increment(ready, q), AddIfAbsent(queues, q, ref, score))
    ensures Increment(ready, q).Keys == AddIfAbsent(queues, q, ref, score).Keys
  {
  }

  // ZPOPMIN: a set whose last member goes disappears.
  function Popped(queues: map<Key, ZSet>, q: Key, ref: Key): map<Key, ZSet>
    requires q in queues
  {
    if queues[q] - {ref} == map[] then queues - {q} else queues[q := queues[q] - {ref}]
  }

  lemma MinIsFirst(queues: map<Key, ZSet>, latest: map<Slot, Job>, s: State, q: Key, ref: Key)
    requires Waits(queues, latest, s.waiting) && q in queues && IsMin(queues[q], ref)
    ensures Slot(q, ref) in latest && IsFirst(s, Slot(q, ref))
  {
    assert Slot(q, ref) in s.waiting;
    forall b | b in s.waiting && b.queue == q && b != Slot(q, ref) ensures Ahead(s, Slot(q, ref), b) {
      assert b.ref in queues[q] && Before(queues[q], ref, b.ref);
    }
  }

  lemma Dequeue(queues: map<Key, ZSet>, latest: map<Slot, Job>, waiting: map<Slot, Waiting>, q: Key, ref: Key)
    requires Waits(queues, latest, waiting) && q in queues && ref in queues[q]
    ensures Waits(Popped(queues, q, ref), latest - {Slot(q, ref)}, waiting - {Slot(q, ref)})
  {
    var queues' := Popped(queues, q, ref);
    forall a | a in waiting && a != Slot(q, ref) ensures a.ref in Get(queues', a.queue)
        && Get(queues', a.queue)[a.ref] == Get(queues, a.queue)[a.ref] {
      assert a.queue != q || a.ref in queues[q] - {ref};
    }
  }

  lemma Decrement(ready: ZSet, queues: map<Key, ZSet>, q: Key, ref: Key)
    requires Counts(ready, queues) && q in queues && ref in queues[q]
    ensures Counts(ready[q := ready[q] - 1], Popped(queues, q, ref))
  {
  }

  lemma Release(active: ZSet, hashes: map<Key, ActiveHash>, jobs: map<Key, Job>, q: Key)
    requires Runs(active, hashes, jobs)
    ensures Runs(active - {q}, hashes - {q}, jobs - {q})
  {
  }

  lemma Occupy(active: ZSet, hashes: map<Key, ActiveHash>, jobs: map<Key, Job>, job: Job)
    requires Runs(active, hashes, jobs)
    ensures Runs(active[job.queue := 1], hashes[job.queue := ActiveHash(job.ref, job)], jobs[job.queue := job])
  {
  }

  lemma Sizes(queues: map<Key, ZSet>, latest: map<Slot, Job>, s: State, q: Key)
    requires Waits(queues, latest, s.waiting)
    ensures Refs(s, q) == Get(queues, q).Keys
  {
    forall r | r in Get(queues, q) ensures r in Refs(s, q) {
      assert Slot(q, r) in s.waiting;
    }
  }

  // ZDIFF ready active lists the startable queues, fewest waiting refs first.
  lemma DiffIsStartable(queues: map<Key, ZSet>, latest: map<Slot, Job>, ready: ZSet, active: ZSet,
                        hashes: map<Key, ActiveHash>, s: State)
    requires Waits(queues, latest, s.waiting) && Runs(active, hashes, s.active)
    requires Counts(ready, queues) && ready.Keys == queues.Keys
    ensures (ready - active.Keys).Keys == Startable(s)
    ensures forall q | q in ready :: ready[q] == |Refs(s, q)|
  {
    forall q | q in ready ensures ready[q] == |Refs(s, q)| { Sizes(queues, latest, s, q); }
    forall q | q in ready - active.Keys ensures q in Startable(s) {
      MinExists(queues[q]);
      var r :| IsMin(queues[q], r);
      assert Slot(q, r) in s.waiting;
    }
  }

  lemma PickedFirst(z: ZSet, all: seq<Key>, s: State, jobs: seq<Job>, p: Key, q: Key)
    requires IsRange(z, all) && (forall q | q in z :: z[q] == |Refs(s, q)|) && |jobs| <= |all|
    requires forall i | 0 <= i < |jobs| :: jobs[i].queue == all[i]
    requires p in Queues(jobs) && q in z && q !in Queues(jobs)
    ensures QueueBefore(s, p, q)
  {
    var job :| job in jobs && job.queue == p;
    var i :| 0 <= i < |jobs| && jobs[i] == job;
    assert q in all;
    var j :| 0 <= j < |all| && all[j] == q;
    assert forall k | 0 <= k < |jobs| :: jobs[k] in jobs && jobs[k].queue in Queues(jobs);
    assert Before(z, all[i], all[j]);
  }

  // The jobs of the first queues in that order form one start call.
  lemma PicksAreAStart(z: ZSet, all: seq<Key>, s: State, n: nat, jobs: seq<Job>)
    requires IsRange(z, all) && z.Keys == Startable(s) && (forall q | q in z :: z[q] == |Refs(s, q)|)
    requires CanTake(s, jobs) && |jobs| == (if n < |all| then n else |all|)
    requires forall i | 0 <= i < |jobs| :: jobs[i].queue == all[i]
    ensures IsStart(s, n, jobs)
  {
    RangeIsDistinct(z, all);
    TakesUseUpQueues(s, jobs);
    assert Serves(s, n, jobs) by { assert |z| == |z.Keys|; }
    forall p, q | p in Queues(jobs) && q in Startable(s) - Queues(jobs) ensures QueueBefore(s, p, q) {
      PickedFirst(z, all, s, jobs, p, q);
    }
    forall i, j | 0 <= i < j < |jobs| ensures QueueBefore(s, jobs[i].queue, jobs[j].queue) {
      assert Before(z, all[i], all[j]);
    }
  }

  lemma TakeOneMore(s: State, jobs: seq<Job>, job: Job)
    requires CanTake(s, jobs) && Enabled(TakeAll(s, jobs), Take(job))
    ensures CanTake(s, jobs + [job]) && TakeAll(s, jobs + [job]) == Next(TakeAll(s, jobs), Take(job))
  {
    assert (jobs + [job])[..|jobs|] == jobs;
  }

  // The jobs come from the first queues of the list, in its order.
  ghost predicate Follow(jobs: seq<Job>, qs: seq<Key>) {
    |jobs| <= |qs| && forall k | 0 <= k < |jobs| :: jobs[k].queue == qs[k]
  }

  lemma FollowOneMore(jobs: seq<Job>, job: Job, qs: seq<Key>)
    requires Follow(jobs, qs) && |jobs| < |qs| && job.queue == qs[|jobs|]
    ensures Follow(jobs + [job], qs)
  {
  }

  lemma PlacedAfterTakes(h: seq<Event>, jobs: seq<Job>)
    requires IsRun(h) && CanTake(After(h), jobs)
    ensures Placed(TakeAll(After(h), jobs).waiting)
  {
    TakesAreARun(h, jobs);
    RunKeepsInvariant(h + Takes(jobs));
  }

  function First(all: seq<Key>, n: nat): seq<Key> { if n < |all| then all[..n] else all }

  lemma PicksCanBeTaken(ready: ZSet, active: ZSet, queues: map<Key, ZSet>, all: seq<Key>, n: nat)
    requires IsRange(ready - active.Keys, all) && ready.Keys == queues.Keys
    ensures forall k | 0 <= k < |First(all, n)| :: First(all, n)[k] in queues && First(all, n)[k] !in active
    ensures forall j, k | 0 <= j < k < |First(all, n)| :: First(all, n)[j] != First(all, n)[k]
  {
    RangeIsDistinct(ready - active.Keys, all);
    assert forall k | 0 <= k < |all| :: all[k] in (ready - active.Keys);
  }

  // What the three predicates say of any run, structure against structure.
  lemma StructuresAgree(queues: map<Key, ZSet>, latest: map<Slot, Job>, ready: ZSet, active: ZSet,
                        hashes: map<Key, ActiveHash>, h: seq<Event>, q: Key, r: Key)
    requires IsRun(h) && Waits(queues, latest, After(h).waiting) && Runs(active, hashes, After(h).active)
    requires Counts(ready, queues) && ready.Keys == queues.Keys
    ensures Slot(q, r) in latest <==> r in Get(queues, q)
    ensures q in ready <==> Get(queues, q) != map[]
    ensures q in ready ==> ready[q] == |Get(queues, q)|
    ensures q in active <==> q in hashes
    ensures q in hashes ==> hashes[q].serialized.Place() == Slot(q, hashes[q].canonical)
    ensures q in hashes ==> hashes[q].canonical !in Get(queues, q)
  {
    RunKeepsInvariant(h);
    assert q in hashes ==> Slot(q, hashes[q].canonical) == After(h).active[q].Place();
  }

  // ZREMRANGEBYSCORE -inf 0
  function Positive(ready: ZSet): ZSet { map q | q in ready && ready[q] > 0 :: ready[q] }

  lemma Cleanup(ready: ZSet, queues: map<Key, ZSet>)
    requires Counts(ready, queues) && forall q | q in queues :: queues[q] != map[]
    ensures Counts(Positive(ready), queues) && Positive(ready).Keys == queues.Keys
  {
    forall q | q in queues ensures ready[q] > 0 { assert queues[q] != map[] && |queues[q]| > 0; }
    forall q | q in Positive(ready) ensures q in queues { assert |Get(queues, q)| > 0; }
  }

  class QueueRedis {
    var localQueues: map<Key, ZSet>          // queue:<source>:local:<branch>
    var latest: map<Slot, Job>               // <local queue>:canonical:<ref>
    var ready: ZSet                          // queue:ready
    var active: ZSet                         // queue:active
    var activeHash: map<Key, ActiveHash>     // <local queue>:active
    ghost var history: seq<Event>

    ghost predicate Represents(s: State)
      reads this
    {
      && Waits(localQueues, latest, s.waiting)
      && Runs(active, activeHash, s.active)
      && Counts(ready, localQueues)
    }

    // The structures agree with each other and stand for the state the recorded run leads to.
    ghost predicate Valid()
      reads this
    {
      IsRun(history) && Represents(After(history)) && ready.Keys == localQueues.Keys
    }

    constructor ()
      ensures Valid() && history == []
    {
      localQueues, latest, ready, active, activeHash := map[], map[], map[], map[], map[];
      history := [];
    }

    // push.lua, first half: the ref joins its local queue (keeping its place if it waits
    // already) and the job becomes the latest one of the ref.
    method Enter(job: Job, score: int, ghost s: State) returns (size: nat, cancel: Option<Job>)
      requires Waits(localQueues, latest, s.waiting) && Counts(ready, localQueues)
      requires ready.Keys == localQueues.Keys
      modifies this`localQueues, this`latest, this`ready
      ensures Waits(localQueues, latest, Enqueued(s.waiting, job, score))
      ensures Counts(ready, localQueues) && ready.Keys == localQueues.Keys
      ensures cancel == Superseded(s, job)
      ensures size == |Get(localQueues, job.queue)|
    {
      Enqueue(localQueues, latest, s.waiting, job, score);
      if job.Place() !in latest { Recount(ready, localQueues, job.queue, job.ref, score); }
      localQueues := AddIfAbsent(localQueues, job.queue, job.ref, score);            // ZADD NX
      size := |Get(localQueues, job.queue)|;                                         // ZCARD
      cancel := if job.Place() in latest then Some(latest[job.Place()]) else None;   // SET .. GET
      latest := latest[job.Place() := job];
      if cancel.None? {
        ready := Increment(ready, job.queue);                                        // ZINCRBY
      }
    }

    // push.lua, second half: if the same ref is being built, its slot is freed.
    method Interrupt(job: Job, ghost s: State) returns (abort: Option<Job>)
      requires Runs(active, activeHash, s.active)
      modifies this`active, this`activeHash
      ensures abort == Interrupted(s, job)
      ensures Runs(active, activeHash, if abort.Some? then s.active - {job.queue} else s.active)
    {
      abort := None;
      if job.queue in activeHash && activeHash[job.queue].canonical == job.ref {     // HMGET
        abort := Some(activeHash[job.queue].serialized);
        Release(active, activeHash, s.active, job.queue);
        activeHash := activeHash - {job.queue};                                      // DEL
        active := active - {job.queue};                                              // ZREM
      }
    }

    // push.lua
    method Push(job: Job, score: int) returns (size: nat, cancel: Option<Job>, abort: Option<Job>)
      requires Valid()
      modifies this
      ensures Valid()
      ensures history == old(history) + [BuildQueue.Push(job, score, cancel, abort)]
      ensures size == |Refs(After(history), job.queue)|
    {
      ghost var s := After(history);
      size, cancel := Enter(job, score, s);
      abort := Interrupt(job, s);
      ghost var e := BuildQueue.Push(job, score, cancel, abort);
      Extend(history, e);
      history := history + [e];
      Sizes(localQueues, latest, After(history), job.queue);
    }

    // complete.lua
    method Complete(job: Job) returns (ok: bool)
      requires Valid()
      modifies this
      ensures Valid()
      ensures history == old(history) + [BuildQueue.Complete(job, ok)]
    {
      ok := job.queue in activeHash && activeHash[job.queue].serialized == job;      // HGET
      if ok {
        Release(active, activeHash, After(history).active, job.queue);
        activeHash := activeHash - {job.queue};                                      // DEL
        active := active - {job.queue};                                              // ZREM
      }
      ghost var e := BuildQueue.Complete(job, ok);
      Extend(history, e);
      history := history + [e];
    }

    // start.lua, takeQueue: pop the first ref of a local queue, with its latest job.
    method PopFirst(q: Key, ghost s: State) returns (job: Option<Job>)
      requires Waits(localQueues, latest, s.waiting) && Counts(ready, localQueues)
      requires Placed(s.waiting) && q in localQueues
      modifies this`localQueues, this`latest, this`ready
      ensures job.Some? && job.value.queue == q
      ensures IsFirst(s, job.value.Place()) && s.waiting[job.value.Place()].job == job.value
      ensures Waits(localQueues, latest, s.waiting - {job.value.Place()}) && Counts(ready, localQueues)
      ensures forall p | p in old(localQueues) && p != q :: p in localQueues
    {
      job := None;
      ghost var before := ready;
      ready := ready[q := ready[q] - 1];                                             // ZINCRBY
      if q in localQueues {
        var ref, rest := PopMin(localQueues[q]);                                     // ZPOPMIN
        MinIsFirst(localQueues, latest, s, q, ref);
        Dequeue(localQueues, latest, s.waiting, q, ref);
        Decrement(before, localQueues, q, ref);
        localQueues := Popped(localQueues, q, ref);
        job := Some(latest[Slot(q, ref)]);                                           // GET
        latest := latest - {Slot(q, ref)};                                           // DEL
      }
    }

    // start.lua, takeQueue: hand out that job and mark the queue active.
    method TakeQueue(q: Key, ghost s: State) returns (job: Option<Job>)
      requires Represents(s) && Placed(s.waiting) && q in localQueues && q !in active
      modifies this`localQueues, this`latest, this`ready, this`active, this`activeHash
      ensures job.Some? && job.value.queue == q && Enabled(s, Take(job.value))
      ensures Represents(Next(s, Take(job.value)))
      ensures forall p | p in old(localQueues) && p != q :: p in localQueues
      ensures active == old(active)[q := 1]
    {
      job := PopFirst(q, s);
      Occupy(active, activeHash, s.active, job.value);
      active := active[q := 1];                                                      // ZADD
      activeHash := activeHash[q := ActiveHash(job.value.ref, job.value)];           // HMSET
    }

    // start.lua, the loop over the queues to serve
    method TakeQueues(qs: seq<Key>, ghost h: seq<Event>) returns (jobs: seq<Job>)
      requires IsRun(h) && Represents(After(h))
      requires forall k | 0 <= k < |qs| :: qs[k] in localQueues && qs[k] !in active
      requires forall j, k | 0 <= j < k < |qs| :: qs[j] != qs[k]
      modifies this`localQueues, this`latest, this`ready, this`active, this`activeHash
      ensures |jobs| == |qs| && CanTake(After(h), jobs) && Represents(TakeAll(After(h), jobs))
      ensures Follow(jobs, qs)
    {
      jobs := [];
      for i := 0 to |qs|
        invariant |jobs| == i && CanTake(After(h), jobs) && Represents(TakeAll(After(h), jobs))
        invariant Follow(jobs, qs)
        invariant forall k | i <= k < |qs| :: qs[k] in localQueues && qs[k] !in active
      {
        PlacedAfterTakes(h, jobs);
        var job := TakeQueue(qs[i], TakeAll(After(h), jobs));
        TakeOneMore(After(h), jobs, job.value);
        FollowOneMore(jobs, job.value, qs);
        jobs := jobs + [job.value];
      }
    }

    // start.lua without its last line
    method Serve(n: nat) returns (jobs: seq<Job>)
      requires Valid()
      modifies this`localQueues, this`latest, this`ready, this`active, this`activeHash
      ensures IsStart(After(history), n, jobs)
      ensures Represents(TakeAll(After(history), jobs))
    {
      var all := Diff(ready, active);                                                // ZDIFF
      ghost var z := ready - active.Keys;
      DiffIsStartable(localQueues, latest, ready, active, activeHash, After(history));
      PicksCanBeTaken(ready, active, localQueues, all, n);
      jobs := TakeQueues(First(all, n), history);
      PicksAreAStart(z, all, After(history), n, jobs);
    }

    // start.lua, and the guard of QueueRedisImpl.start
    method Start(maxCount: int) returns (jobs: seq<Job>)
      requires Valid()
      modifies this
      ensures Valid()
      ensures history == old(history) + Takes(jobs)
      ensures IsStart(old(After(history)), if maxCount > 0 then maxCount else 0, jobs)
    {
      jobs := Serve(if maxCount > 0 then maxCount else 0);
      Cleanup(ready, localQueues);
      ready := Positive(ready);                                                      // ZREMRANGEBYSCORE
      TakesAreARun(history, jobs);
      history := history + Takes(jobs);
    }
  }
}
