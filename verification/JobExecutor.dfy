// The executor on its task queue: what one job's uid sees of the queue is exactly the job
// machine of JobRounds, and the process loop stores what the rounds of its entries decide.
module JobExecutor {
  import opened Options
  import opened TaskQueue
  import opened TaskQueueImplementation
  import Rounds = JobRounds

  type State = Rounds.JobState

  // The job machine's state, read off a run of the task queue.
  ghost function View(h: seq<Event<State>>, u: Uid): Rounds.Job
    requires IsRun(h)
  {
    Rounds.Job(Items(After(h), u), u in After(h).schedule)
  }

  // Storing a state (startJob, abortJob, the end of a round) is the machine's upsert.
  lemma StoreView(h: seq<Event<State>>, u: Uid, due: int, s: State)
    requires IsRun(h)
    ensures IsRun(h + [Upsert(u, due, s)])
    ensures View(h + [Upsert(u, due, s)], u) == Rounds.Upserted(View(h, u), s)
  {
    UidView(h, Upsert(u, due, s), u);
  }

  // Steps of other jobs, reads, and commits that lose the race change nothing for a job.
  lemma OtherView(h: seq<Event<State>>, e: Event<State>, u: Uid)
    requires IsRun(h) && Enabled(After(h), e) && !Upserts(e, u) && !Delivers(e, u)
    ensures IsRun(h + [e]) && View(h + [e], u) == View(h, u)
  {
    UidView(h, e, u);
  }

  // ---------------------------------------------------------------- the process loop

  // The upsert of an outcome, if it stores a state.
  function Written(u: Uid, o: Rounds.Outcome, now: int): seq<Event<State>> {
    if o.upsert.Some? then [Upsert(u, now + o.wait * 1000, o.upsert.value)] else []
  }

  function Stored(x: Entry<State>, r: Rounds.Replies, now: int): seq<Event<State>> {
    Written(x.uid, Rounds.Round(x.data, r), now)
  }

  function AllStored(entries: seq<Entry<State>>, replies: Uid -> Rounds.Replies, now: int): seq<Event<State>> {
    if entries == [] then []
    else
      var n := |entries| - 1;
      AllStored(entries[..n], replies, now) + Stored(entries[n], replies(entries[n].uid), now)
  }

  // The calls of the rounds, entry by entry.
  function AllCalls(entries: seq<Entry<State>>, replies: Uid -> Rounds.Replies): (calls: seq<seq<Rounds.Call>>)
  {
    if entries == [] then []
    else
      var n := |entries| - 1;
      AllCalls(entries[..n], replies) + [Rounds.Round(entries[n].data, replies(entries[n].uid)).calls]
  }

  // ---------------------------------------------------------------- whole runs

  // Steps of the executors of a system, in any interleaving: the calls startJob and abortJob,
  // the read phase of a pop, and a commit with the rounds of what it delivers.
  datatype Step =
    | StartOf(key: Uid, due: int)
    | AbortOf(key: Uid, due: int)
    | ReadOf(popper: nat, until: int, maxCount: nat, uids: seq<Uid>)
    | RoundsOf(popper: nat, entries: seq<Entry<State>>, replies: Uid -> Rounds.Replies, now: int)

  function Events(t: Step): seq<Event<State>> {
    match t
    case StartOf(u, due) => [Upsert(u, due, Rounds.Queued(0))]
    case AbortOf(u, due) => [Upsert(u, due, Rounds.Abort)]
    case ReadOf(p, until, maxCount, uids) => [Read(p, until, maxCount, uids)]
    case RoundsOf(p, entries, replies, now) => [Commit(p, entries)] + AllStored(entries, replies, now)
  }

  function History(steps: seq<Step>): seq<Event<State>> {
    if steps == [] then [] else History(steps[..|steps| - 1]) + Events(steps[|steps| - 1])
  }

  ghost predicate IsUidOf(entries: seq<Entry<State>>, u: Uid) { exists x | x in entries :: x.uid == u }

  // The step of the job machine, if any, that a step of the executors is for one job.
  ghost function JobSteps(t: Step, u: Uid): seq<Rounds.Step> {
    match t
    case StartOf(v, _) => if v == u then [Rounds.StartJob] else []
    case AbortOf(v, _) => if v == u then [Rounds.AbortJob] else []
    case ReadOf(_, _, _, _) => []
    case RoundsOf(_, entries, replies, _) => if IsUidOf(entries, u) then [Rounds.RoundStep(replies(u))] else []
  }

  // The run of one job inside a run of the executors.
  ghost function JobRun(steps: seq<Step>, u: Uid): seq<Rounds.Step> {
    if steps == [] then [] else JobRun(steps[..|steps| - 1], u) + JobSteps(steps[|steps| - 1], u)
  }

  predicate StartsOnce(steps: seq<Step>, u: Uid) {
    forall i, j | 0 <= i < j < |steps| :: !(IsStart(steps[i], u) && IsStart(steps[j], u))
  }
  predicate IsStart(t: Step, u: Uid) { t.StartOf? && t.key == u }

  function StoredOn(j: Rounds.Job, x: Entry<State>, r: Rounds.Replies): Rounds.Job {
    match Rounds.Round(x.data, r).upsert
    case None => j
    case Some(s) => Rounds.Upserted(j, s)
  }

  lemma StoredOne(h: seq<Event<State>>, x: Entry<State>, r: Rounds.Replies, now: int, u: Uid)
    requires IsRun(h)
    ensures IsRun(h + Stored(x, r, now))
    ensures View(h + Stored(x, r, now), u) == if x.uid == u then StoredOn(View(h, u), x, r) else View(h, u)
  {
    var o := Rounds.Round(x.data, r);
    if o.upsert.None? {
      assert h + Stored(x, r, now) == h;
    } else if x.uid == u {
      StoreView(h, u, now + o.wait * 1000, o.upsert.value);
    } else {
      OtherView(h, Upsert(x.uid, now + o.wait * 1000, o.upsert.value), u);
    }
  }

  predicate DistinctUids(entries: seq<Entry<State>>) {
    forall i, j | 0 <= i < j < |entries| :: entries[i].uid != entries[j].uid
  }

  function AllStoredOn(j: Rounds.Job, entries: seq<Entry<State>>, r: Rounds.Replies, u: Uid): Rounds.Job {
    if entries == [] then j
    else
      var n := |entries| - 1;
      var f := AllStoredOn(j, entries[..n], r, u);
      if entries[n].uid == u then StoredOn(f, entries[n], r) else f
  }

  lemma {:induction false} StoredView(h: seq<Event<State>>, entries: seq<Entry<State>>, replies: Uid -> Rounds.Replies,
                                      now: int, u: Uid)
    requires IsRun(h)
    ensures IsRun(h + AllStored(entries, replies, now))
    ensures View(h + AllStored(entries, replies, now), u) == AllStoredOn(View(h, u), entries, replies(u), u)
  {
    if entries == [] {
      assert h + AllStored(entries, replies, now) == h;
    } else {
      var n := |entries| - 1;
      var a, b := AllStored(entries[..n], replies, now), Stored(entries[n], replies(entries[n].uid), now);
      StoredView(h, entries[..n], replies, now, u);
      StoredOne(h + a, entries[n], replies(entries[n].uid), now, u);
      Associative(h, a, b);
    }
  }

  lemma {:induction false} StoredOnce(j: Rounds.Job, entries: seq<Entry<State>>, r: Rounds.Replies, u: Uid)
    requires DistinctUids(entries)
    ensures !IsUidOf(entries, u) ==> AllStoredOn(j, entries, r, u) == j
    ensures forall x | x in entries && x.uid == u :: AllStoredOn(j, entries, r, u) == StoredOn(j, x, r)
  {
    if entries != [] {
      var front, last := entries[..|entries| - 1], entries[|entries| - 1];
      StoredOnce(j, front, r, u);
      assert forall x | x in front :: x in entries;
      assert forall x | x in entries :: x in front || x == last;
      assert last.uid == u ==> forall x | x in front :: x.uid != u;
    }
  }

  lemma Associative<T>(a: seq<T>, b: seq<T>, c: seq<T>)
    ensures a + (b + c) == (a + b) + c
  {
  }

  lemma BatchView(h: seq<Event<State>>, t: Step, u: Uid)
    requires IsRun(h) && t.RoundsOf? && Enabled(After(h), Commit(t.popper, t.entries))
    ensures IsRun(h + Events(t))
    ensures !IsUidOf(t.entries, u) ==> View(h + Events(t), u) == View(h, u)
    ensures IsUidOf(t.entries, u) ==>
              View(h, u).scheduled && View(h + Events(t), u) == Rounds.Do(View(h, u), Rounds.RoundStep(t.replies(u)))
  {
    var e: Event<State> := Commit(t.popper, t.entries);
    CommitView(h, e, u);
    CommitDistinct(h, e);
    StoredView(h + [e], t.entries, t.replies, t.now, u);
    Associative(h, [e], AllStored(t.entries, t.replies, t.now));
    BatchIsDo(View(h, u), t.entries, t.replies(u), u);
  }

  // Unscheduling a job and storing what the rounds of a batch decide is one round of that job.
  lemma BatchIsDo(j: Rounds.Job, entries: seq<Entry<State>>, r: Rounds.Replies, u: Uid)
    requires DistinctUids(entries) && forall x | x in entries && x.uid == u :: x.data == Range(j.items)
    ensures !IsUidOf(entries, u) ==> AllStoredOn(j, entries, r, u) == j
    ensures IsUidOf(entries, u) ==>
              AllStoredOn(j.(scheduled := false), entries, r, u) == Rounds.Do(j, Rounds.RoundStep(r))
  {
    if IsUidOf(entries, u) {
      var x :| x in entries && x.uid == u;
      StoredOnce(j.(scheduled := false), entries, r, u);
      RoundIsDo(j, x, r);
    } else {
      StoredOnce(j, entries, r, u);
    }
  }

  lemma RoundIsDo(j: Rounds.Job, x: Entry<State>, r: Rounds.Replies)
    requires x.data == Range(j.items)
    ensures StoredOn(j.(scheduled := false), x, r) == Rounds.Do(j, Rounds.RoundStep(r))
  {
  }

  lemma CommitView(h: seq<Event<State>>, e: Event<State>, u: Uid)
    requires IsRun(h) && e.Commit? && Enabled(After(h), e)
    ensures IsRun(h + [e])
    ensures if IsUidOf(e.entries, u) then View(h, u).scheduled && View(h + [e], u) == View(h, u).(scheduled := false)
            else View(h + [e], u) == View(h, u)
    ensures forall x | x in e.entries && x.uid == u :: x.data == Range(View(h, u).items)
  {
    UidView(h, e, u);
    assert Delivers(e, u) <==> IsUidOf(e.entries, u);
  }

  lemma CommitDistinct(h: seq<Event<State>>, e: Event<State>)
    requires IsRun(h) && e.Commit? && Enabled(After(h), e)
    ensures DistinctUids(e.entries)
  {
    RunKeepsInvariant(h);
    assert e.entries == Claimed(After(h), After(h).pending[e.popper]);
    ClaimedOnce(After(h), After(h).pending[e.popper]);
  }

  lemma FirstEvent(h: seq<Event<State>>, suffix: seq<Event<State>>)
    requires IsRun(h + suffix) && suffix != []
    ensures IsRun(h) && Enabled(After(h), suffix[0])
  {
    Prefix(h + suffix, |h|);
    assert (h + suffix)[..|h|] == h && (h + suffix)[|h|] == suffix[0];
  }

  lemma StoredFor(h: seq<Event<State>>, v: Uid, due: int, s: State, u: Uid)
    requires IsRun(h)
    ensures IsRun(h + [Upsert(v, due, s)])
    ensures View(h + [Upsert(v, due, s)], u) == if v == u then Rounds.Upserted(View(h, u), s) else View(h, u)
  {
    if v == u { StoreView(h, u, due, s); } else { OtherView(h, Upsert(v, due, s), u); }
  }

  lemma CallView(h: seq<Event<State>>, t: Step, u: Uid)
    requires IsRun(h) && !t.RoundsOf? && Enabled(After(h), Events(t)[0])
    ensures IsRun(h + Events(t))
    ensures View(h + Events(t), u)
         == if JobSteps(t, u) == [] then View(h, u) else Rounds.Do(View(h, u), JobSteps(t, u)[0])
  {
    match t
    case StartOf(v, due) => StoredFor(h, v, due, Rounds.Queued(0), u);
    case AbortOf(v, due) => StoredFor(h, v, due, Rounds.Abort, u);
    case ReadOf(p, until, maxCount, uids) => OtherView(h, Read(p, until, maxCount, uids), u);
  }

  lemma StepView(h: seq<Event<State>>, t: Step, u: Uid)
    requires IsRun(h + Events(t))
    ensures IsRun(h)
    ensures View(h + Events(t), u)
         == if JobSteps(t, u) == [] then View(h, u) else Rounds.Do(View(h, u), JobSteps(t, u)[0])
    ensures JobSteps(t, u) != [] && JobSteps(t, u)[0].RoundStep? ==> View(h, u).scheduled
  {
    FirstEvent(h, Events(t));
    if t.RoundsOf? { BatchView(h, t, u); } else { CallView(h, t, u); }
  }

  lemma JobExtends(run: seq<Rounds.Step>, t: Rounds.Step)
    requires Rounds.IsRun(run) && (t.StartJob? ==> Rounds.StartJob !in run)
    requires t.RoundStep? ==> Rounds.After(run).scheduled
    ensures Rounds.IsRun(run + [t]) && Rounds.After(run + [t]) == Rounds.Do(Rounds.After(run), t)
  {
    assert (run + [t])[..|run|] == run;
  }

  lemma {:induction false} StartedBefore(steps: seq<Step>, u: Uid)
    ensures Rounds.StartJob in JobRun(steps, u) ==> exists i :: 0 <= i < |steps| && IsStart(steps[i], u)
  {
    if steps != [] && Rounds.StartJob in JobRun(steps, u) {
      var n := |steps| - 1;
      StartedBefore(steps[..n], u);
      if Rounds.StartJob in JobRun(steps[..n], u) {
        var i :| 0 <= i < n && IsStart(steps[..n][i], u);
        assert IsStart(steps[i], u);
      } else {
        assert IsStart(steps[n], u);
      }
    }
  }

  // In every run of the executors, whatever the interleaving, the steps of each job form a run
  // of the job machine, and the task queue holds for it what that run leads to.
  lemma {:induction false} EveryJobRuns(steps: seq<Step>, u: Uid)
    requires IsRun(History(steps)) && StartsOnce(steps, u)
    ensures Rounds.IsRun(JobRun(steps, u)) && Rounds.After(JobRun(steps, u)) == View(History(steps), u)
  {
    if steps == [] {
      assert History(steps) == [];
    } else {
      var n := |steps| - 1;
      var front, t := steps[..n], steps[n];
      assert forall i | 0 <= i < n :: front[i] == steps[i];
      StepView(History(front), t, u);
      EveryJobRuns(front, u);
      var job := JobRun(front, u);
      if JobSteps(t, u) == [] {
        assert JobRun(steps, u) == job;
      } else {
        StartedBefore(front, u);
        if t.StartOf? { assert IsStart(steps[n], u); }
        JobExtends(job, JobSteps(t, u)[0]);
        assert JobRun(steps, u) == job + [JobSteps(t, u)[0]];
      }
    }
  }

  // So in every such run the data of a key stays small, and a round recovers what was last stored.
  lemma StoreStaysSmall(steps: seq<Step>, u: Uid)
    requires IsRun(History(steps)) && StartsOnce(steps, u)
    ensures |Items(After(History(steps)), u)| <= Rounds.MOST
    ensures Rounds.Recovered(Range(Items(After(History(steps)), u))) == Rounds.LastStored(JobRun(steps, u))
  {
    EveryJobRuns(steps, u);
    Rounds.RecoversLastStored(JobRun(steps, u));
  }

  predicate IsAbort(t: Step, u: Uid) { t.AbortOf? && t.key == u }

  lemma {:induction false} AbortedBefore(steps: seq<Step>, u: Uid, i: nat)
    requires i < |steps| && IsAbort(steps[i], u)
    ensures Rounds.AbortJob in JobRun(steps, u)
  {
    var n := |steps| - 1;
    if i < n {
      AbortedBefore(steps[..n], u, i);
    } else {
      assert Rounds.AbortJob in JobSteps(steps[n], u);
    }
  }

  // And once abortJob was called for a key, the entries later commits deliver for it lead to no
  // startActivity, no onJobStarted and no terminal report but an error.
  lemma AbortedKeyStaysQuiet(steps: seq<Step>, i: nat, t: Step, x: Entry<State>, c: Rounds.Call)
    requires IsRun(History(steps) + Events(t)) && StartsOnce(steps, x.uid) && i < |steps| && IsAbort(steps[i], x.uid)
    requires t.RoundsOf? && x in t.entries && c in Rounds.Round(x.data, t.replies(x.uid)).calls
    ensures Rounds.Quiet(c)
  {
    var h := History(steps);
    FirstEvent(h, Events(t));
    CommitView(h, Commit(t.popper, t.entries), x.uid);
    EveryJobRuns(steps, x.uid);
    AbortedBefore(steps, x.uid, i);
    Rounds.AbortIsSticky(JobRun(steps, x.uid), t.replies(x.uid), c);
  }

  // ---------------------------------------------------------------- bounds on whole runs

  ghost predicate IsRoundOf(t: Step, u: Uid) { t.RoundsOf? && IsUidOf(t.entries, u) }

  // How often the queue delivered a key, and how often abortJob and startJob were called for it.
  ghost function Deliveries(steps: seq<Step>, u: Uid): nat {
    if steps == [] then 0 else Deliveries(steps[..|steps| - 1], u) + if IsRoundOf(steps[|steps| - 1], u) then 1 else 0
  }
  function Aborts(steps: seq<Step>, u: Uid): nat {
    if steps == [] then 0 else Aborts(steps[..|steps| - 1], u) + if IsAbort(steps[|steps| - 1], u) then 1 else 0
  }
  function Starts(steps: seq<Step>, u: Uid): nat {
    if steps == [] then 0 else Starts(steps[..|steps| - 1], u) + if IsStart(steps[|steps| - 1], u) then 1 else 0
  }

  lemma CountsOfOneMore(job: seq<Rounds.Step>, t: Rounds.Step)
    ensures Rounds.Rounds(job + [t]) == Rounds.Rounds(job) + if t.RoundStep? then 1 else 0
    ensures Rounds.Aborts(job + [t]) == Rounds.Aborts(job) + if t.AbortJob? then 1 else 0
    ensures Rounds.Starts(job + [t]) == Rounds.Starts(job) + if t.StartJob? then 1 else 0
    ensures Rounds.AbortJob in job + [t] <==> Rounds.AbortJob in job || t.AbortJob?
  {
    assert (job + [t])[..|job|] == job;
  }

  lemma {:induction false} JobCounts(steps: seq<Step>, u: Uid)
    ensures Rounds.Rounds(JobRun(steps, u)) == Deliveries(steps, u)
    ensures Rounds.Aborts(JobRun(steps, u)) == Aborts(steps, u)
    ensures Rounds.Starts(JobRun(steps, u)) == Starts(steps, u)
    ensures Rounds.AbortJob in JobRun(steps, u) <==> Aborts(steps, u) > 0
  {
    if steps != [] {
      var front, t := steps[..|steps| - 1], steps[|steps| - 1];
      var job, step := JobRun(front, u), JobSteps(t, u);
      JobCounts(front, u);
      if step == [] {
        assert job + step == job;
      } else {
        assert step == [step[0]];
        CountsOfOneMore(job, step[0]);
      }
    }
  }

  lemma {:induction false} JobRunSplits(base: seq<Step>, tail: seq<Step>, u: Uid)
    ensures JobRun(base + tail, u) == JobRun(base, u) + JobRun(tail, u)
    decreases |tail|
  {
    if tail == [] {
      assert base + tail == base;
    } else {
      var front, t := tail[..|tail| - 1], tail[|tail| - 1];
      JobRunSplits(base, front, u);
      assert (base + tail)[..|base + tail| - 1] == base + front && (base + tail)[|base + tail| - 1] == t;
      Associative(JobRun(base, u), JobRun(front, u), JobSteps(t, u));
    }
  }

  // In every run of the executors without an abort of a key, it is delivered at most 153 times,
  // and 21 times more per poll that finds its activity running; and once it was started and is
  // no longer scheduled the listener has had exactly one terminal call for it, and none before.
  lemma EveryJobTerminates(steps: seq<Step>, u: Uid)
    requires IsRun(History(steps)) && StartsOnce(steps, u) && Aborts(steps, u) == 0
    ensures Deliveries(steps, u) <= 153 + 21 * Rounds.Polls(JobRun(steps, u))
    ensures Rounds.AllEndings(JobRun(steps, u))
         == if Starts(steps, u) > 0 && u !in After(History(steps)).schedule then 1 else 0
  {
    EveryJobRuns(steps, u);
    JobCounts(steps, u);
    Rounds.JobTerminates(JobRun(steps, u));
    StartsCounted(JobRun(steps, u));
  }

  lemma {:induction false} StartsCounted(run: seq<Rounds.Step>)
    ensures Rounds.Starts(run) > 0 <==> Rounds.StartJob in run
  {
    if run != [] {
      StartsCounted(run[..|run| - 1]);
      assert run == run[..|run| - 1] + [run[|run| - 1]];
    }
  }

  // After an abort of a key it is delivered at most 101 times more, plus once for every further
  // abortJob and 31 times for a startJob still to come, whatever the connectors answer.
  lemma AbortedKeyEnds(base: seq<Step>, tail: seq<Step>, u: Uid)
    requires IsRun(History(base + tail)) && StartsOnce(base + tail, u) && Aborts(base, u) > 0
    ensures Deliveries(tail, u) <= 101 + Aborts(tail, u) + 31 * Starts(tail, u)
  {
    EveryJobRuns(base + tail, u);
    JobRunSplits(base, tail, u);
    JobCounts(base, u);
    JobCounts(tail, u);
    Rounds.AbortedRoundsAreFew(JobRun(base, u), JobRun(tail, u));
  }

  lemma StepRecorded(steps: seq<Step>, t: Step)
    ensures History(steps + [t]) == History(steps) + Events(t)
  {
    assert (steps + [t])[..|steps|] == steps;
  }

  // The events of process are those of a read step and a step of rounds.
  lemma ProcessRecorded(h: seq<Event<State>>, steps: seq<Step>, popper: nat, now: int, uids: seq<Uid>,
                        entries: seq<Entry<State>>, replies: Uid -> Rounds.Replies)
    ensures var read, rounds := ReadOf(popper, now, 2, uids), RoundsOf(popper, entries, replies, now);
            var after := h + [Read(popper, now, 2, uids)] + [Commit(popper, entries)]
                         + AllStored(entries, replies, now);
            && after == h + Events(read) + Events(rounds)
            && (h == History(steps) ==> after == History(steps + [read] + [rounds]))
  {
    var read, rounds := ReadOf(popper, now, 2, uids), RoundsOf(popper, entries, replies, now);
    Associative(h + Events(read), [Commit(popper, entries)], AllStored(entries, replies, now));
    StepRecorded(steps, read);
    StepRecorded(steps + [read], rounds);
  }

  class CynosureJobExecutor {
    const taskQueue: TaskQueueImpl<State>
    ghost var steps: seq<Step>   // what this executor did so far

    constructor (taskQueue: TaskQueueImpl<State>)
      ensures this.taskQueue == taskQueue && steps == []
    {
      this.taskQueue := taskQueue;
      steps := [];
    }

    // Nobody else works on the task queue. (Runs with others are in the lemmas above.)
    ghost predicate Alone()
      reads this, taskQueue
    {
      taskQueue.history == History(steps)
    }

    method StartJob(key: Uid, now: int, time: int)
      requires taskQueue.Valid() && taskQueue.clock < time
      modifies this`steps, taskQueue
      ensures taskQueue.Valid() && taskQueue.clock == time
      ensures taskQueue.history == old(taskQueue.history) + Events(StartOf(key, now))
      ensures View(taskQueue.history, key) == Rounds.Do(old(View(taskQueue.history, key)), Rounds.StartJob)
      ensures steps == old(steps) + [StartOf(key, now)] && (old(Alone()) ==> Alone())
    {
      StoreView(taskQueue.history, key, now, Rounds.Queued(0));
      StepRecorded(steps, StartOf(key, now));
      taskQueue.Upsert(key, now, Rounds.Queued(0), time);
      steps := steps + [StartOf(key, now)];
    }

    method AbortJob(key: Uid, now: int, time: int)
      requires taskQueue.Valid() && taskQueue.clock < time
      modifies this`steps, taskQueue
      ensures taskQueue.Valid() && taskQueue.clock == time
      ensures taskQueue.history == old(taskQueue.history) + Events(AbortOf(key, now))
      ensures View(taskQueue.history, key) == Rounds.Do(old(View(taskQueue.history, key)), Rounds.AbortJob)
      ensures steps == old(steps) + [AbortOf(key, now)] && (old(Alone()) ==> Alone())
    {
      StoreView(taskQueue.history, key, now, Rounds.Abort);
      StepRecorded(steps, AbortOf(key, now));
      taskQueue.Upsert(key, now, Rounds.Abort, time);
      steps := steps + [AbortOf(key, now)];
    }

    // states.reverse(), then find
    method FindState(states: seq<State>, f: State -> bool) returns (found: Option<State>)
      ensures found == Rounds.Latest(states, f)
    {
      var i := |states|;
      assert states[..i] == states;
      while i > 0
        invariant 0 <= i <= |states| && Rounds.Latest(states, f) == Rounds.Latest(states[..i], f)
      {
        if f(states[i - 1]) { return Some(states[i - 1]); }
        assert states[..i][..i - 1] == states[..i - 1];
        i := i - 1;
      }
      return None;
    }

    // Stores a state; the calls of a round are collected for the caller.
    method Store(u: Uid, s: State, wait: nat, now: int, time: int)
      requires taskQueue.Valid() && taskQueue.clock < time
      modifies taskQueue
      ensures taskQueue.Valid() && taskQueue.clock == time
      ensures taskQueue.history == old(taskQueue.history) + [Upsert(u, now + wait * 1000, s)]
    {
      taskQueue.Upsert(u, now + wait * 1000, s, time);
    }

    method HandleError(u: Uid, s: State, config: Rounds.Retry, now: int, time: int) returns (calls: seq<Rounds.Call>)
      requires taskQueue.Valid() && taskQueue.clock < time
      modifies taskQueue
      ensures taskQueue.Valid() && taskQueue.clock <= time
      ensures taskQueue.history == old(taskQueue.history) + Written(u, Rounds.HandleError(s, config), now)
      ensures calls == Rounds.HandleError(s, config).calls
    {
      calls := [];
      if Rounds.Failures(s) < config.count {
        if (Rounds.Failures(s) + 1) % 5 == 0 { calls := [Rounds.OnLog]; }
        Store(u, Rounds.WithNewFailure(s), config.wait, now, time);
      } else {
        calls := [Rounds.OnError];
      }
    }

    method HandleStarted(u: Uid, s: State, aborted: bool, r: Rounds.Replies, now: int, time: int)
        returns (calls: seq<Rounds.Call>)
      requires taskQueue.Valid() && taskQueue.clock < time && s.Started? && r.Connector?
      modifies taskQueue
      ensures taskQueue.Valid() && taskQueue.clock <= time
      ensures taskQueue.history == old(taskQueue.history) + Written(u, Rounds.StartedRound(s, aborted, r), now)
      ensures calls == Rounds.StartedRound(s, aborted, r).calls
    {
      if aborted {
        calls := [Rounds.ChangeTag, Rounds.AbortActivity];
      } else if r.find.Fails? {
        calls := HandleError(u, s, Rounds.ERROR, now, time);
      } else if r.find.value.None? {
        calls := HandleError(u, s, Rounds.STARTED_FIND, now, time);
      } else {
        match r.find.value.value
        case Finished(_, Passed) => calls := [Rounds.OnSuccess];
        case Finished(_, VerdictAborted) => calls := [Rounds.OnAborted];
        case Finished(_, VerdictFailed) => calls := [Rounds.OnFailure];
        case Finished(_, Errored) => calls := [Rounds.OnError];
        case Finished(_, Skipped) => calls := [Rounds.OnAborted];
        case Finished(_, OtherVerdict) => calls := [Rounds.OnError];
        case Running(_) =>
          calls := [];
          Store(u, Rounds.Started(s.product, s.activity, 0), Rounds.POLL, now, time);
      }
    }

    method HandleStarting(u: Uid, s: State, aborted: bool, r: Rounds.Replies, now: int, time: int)
        returns (calls: seq<Rounds.Call>)
      requires taskQueue.Valid() && taskQueue.clock < time && s.Starting? && r.Connector?
      modifies taskQueue
      ensures taskQueue.Valid() && taskQueue.clock <= time
      ensures taskQueue.history == old(taskQueue.history) + Written(u, Rounds.StartingRound(s, aborted, r), now)
      ensures calls == Rounds.StartingRound(s, aborted, r).calls
    {
      if r.find.Fails? {
        calls := HandleError(u, s, Rounds.ERROR, now, time);
      } else if r.find.value.None? {
        calls := HandleError(u, s, Rounds.STARTING_FIND, now, time);
      } else if aborted {
        calls := [];
        if r.abortOps.Fails? { calls := HandleError(u, s, Rounds.ERROR, now, time); }
        calls := [Rounds.ChangeTag, Rounds.AbortActivity] + calls;
      } else {
        calls := [Rounds.OnStarted];
        Store(u, Rounds.Started(s.product, r.find.value.value.id, 0), Rounds.POLL, now, time);
      }
    }

    method HandleQueued(u: Uid, s: State, aborted: bool, r: Rounds.Replies, now: int, time: int)
        returns (calls: seq<Rounds.Call>)
      requires taskQueue.Valid() && taskQueue.clock < time && s.Queued? && r.Connector?
      modifies taskQueue
      ensures taskQueue.Valid() && taskQueue.clock <= time
      ensures taskQueue.history == old(taskQueue.history) + Written(u, Rounds.QueuedRound(s, aborted, r), now)
      ensures calls == Rounds.QueuedRound(s, aborted, r).calls
    {
      if r.product.Fails? {
        calls := HandleError(u, s, Rounds.ERROR, now, time);
      } else if r.product.value.None? {
        calls := HandleError(u, s, Rounds.FIND_PRODUCT, now, time);
      } else if aborted {
        calls := [];
        if r.abortOps.Fails? { calls := HandleError(u, s, Rounds.ERROR, now, time); }
        calls := [Rounds.ChangeTag] + calls;
      } else {
        calls := [];
        if r.start.Fails? {
          calls := HandleError(u, s, Rounds.ERROR, now, time);
        } else if r.start.value {
          Store(u, Rounds.Starting(r.product.value.value, 0), Rounds.STARTING_FIND.wait, now, time);
        } else {
          calls := HandleError(u, s, Rounds.START_ACTIVITY, now, time);
        }
        calls := [Rounds.StartActivity] + calls;
      }
    }

    // One round: the states found in the data decide which branch is taken.
    method HandleEntry(x: Entry<State>, r: Rounds.Replies, now: int, time: int) returns (calls: seq<Rounds.Call>)
      requires taskQueue.Valid() && taskQueue.clock < time
      modifies taskQueue
      ensures taskQueue.Valid() && taskQueue.clock <= time
      ensures taskQueue.history == old(taskQueue.history) + Stored(x, r, now)
      ensures calls == Rounds.Round(x.data, r).calls
    {
      if r.NoConnector? { return [Rounds.OnError]; }
      var queued := FindState(x.data, (s: State) => s.Queued?);
      var starting := FindState(x.data, (s: State) => s.Starting?);
      var started := FindState(x.data, (s: State) => s.Started?);
      var abort := FindState(x.data, (s: State) => s.Abort?);
      FoundKinds(x.data);
      calls := [];
      if started.Some? {
        calls := HandleStarted(x.uid, started.value, abort.Some?, r, now, time);
      } else if starting.Some? {
        calls := HandleStarting(x.uid, starting.value, abort.Some?, r, now, time);
      } else if queued.Some? {
        calls := HandleQueued(x.uid, queued.value, abort.Some?, r, now, time);
      }
    }

    // The rounds of the entries a pop delivered. `time` is the first of the increasing scores.
    method HandleEntries(entries: seq<Entry<State>>, replies: Uid -> Rounds.Replies, now: int, time: int)
        returns (calls: seq<seq<Rounds.Call>>)
      requires taskQueue.Valid() && taskQueue.clock < time
      modifies taskQueue
      ensures taskQueue.Valid()
      ensures taskQueue.history == old(taskQueue.history) + AllStored(entries, replies, now)
      ensures calls == AllCalls(entries, replies)
    {
      calls := [];
      for i := 0 to |entries|
        invariant taskQueue.Valid() && taskQueue.clock < time + i
        invariant taskQueue.history == old(taskQueue.history) + AllStored(entries[..i], replies, now)
        invariant calls == AllCalls(entries[..i], replies)
      {
        assert entries[..i + 1][..i] == entries[..i];
        var made := HandleEntry(entries[i], replies(entries[i].uid), now, time + i);
        calls := calls + [made];
      }
      assert entries[..|entries|] == entries;
    }

    // popExpired(2, now) with nothing between its phases
    method PopExpired(now: int, ghost popper: nat)
        returns (hasMore: bool, uids: seq<Uid>, entries: seq<Entry<State>>)
      requires taskQueue.Valid() && popper !in After(taskQueue.history).pending
      modifies taskQueue
      ensures taskQueue.Valid() && taskQueue.clock == old(taskQueue.clock)
      ensures taskQueue.history == old(taskQueue.history) + [Read(popper, now, 2, uids)] + [Commit(popper, entries)]
      ensures hasMore <==> uids != [] && (|entries| != |uids| || |uids| == 2)
      ensures ReadsFirst(old(After(taskQueue.history).schedule), now, 2, uids)
    {
      ghost var h := taskQueue.history;
      uids := taskQueue.ReadExpired(2, now, popper);
      Grown(h, Read(popper, now, 2, uids));
      entries, hasMore := taskQueue.CommitExpired(uids, 2, popper);
    }

    // process: pop up to two expired entries and run their rounds; true asks for a direct rescan.
    method Process(replies: Uid -> Rounds.Replies, now: int, time: int, ghost popper: nat)
        returns (hasMore: bool, uids: seq<Uid>, entries: seq<Entry<State>>, calls: seq<seq<Rounds.Call>>)
      requires taskQueue.Valid() && taskQueue.clock < time && popper !in After(taskQueue.history).pending
      modifies this`steps, taskQueue
      ensures taskQueue.Valid()
      ensures taskQueue.history == old(taskQueue.history) + Events(ReadOf(popper, now, 2, uids))
                                 + Events(RoundsOf(popper, entries, replies, now))
      ensures calls == AllCalls(entries, replies)
      ensures hasMore <==> uids != [] && (|entries| != |uids| || |uids| == 2)
      ensures ReadsFirst(old(After(taskQueue.history).schedule), now, 2, uids)
      ensures steps == old(steps) + [ReadOf(popper, now, 2, uids)] + [RoundsOf(popper, entries, replies, now)]
      ensures old(Alone()) ==> Alone()
    {
      ghost var h := taskQueue.history;
      hasMore, uids, entries := PopExpired(now, popper);
      calls := HandleEntries(entries, replies, now, time);
      ProcessRecorded(h, steps, popper, now, uids, entries, replies);
      steps := steps + [ReadOf(popper, now, 2, uids)] + [RoundsOf(popper, entries, replies, now)];
    }
  }

  lemma FoundKinds(states: seq<State>)
    ensures Rounds.LatestStarted(states).Some? ==> Rounds.LatestStarted(states).value.Started?
    ensures Rounds.LatestStarting(states).Some? ==> Rounds.LatestStarting(states).value.Starting?
    ensures Rounds.LatestQueued(states).Some? ==> Rounds.LatestQueued(states).value.Queued?
  {
    Rounds.LatestIsMember(states, (s: State) => s.Started?);
    Rounds.LatestIsMember(states, (s: State) => s.Starting?);
    Rounds.LatestIsMember(states, (s: State) => s.Queued?);
  }
}
