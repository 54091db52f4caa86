// What each delivery of the task queue leads to, in every run of the executors.
module JobDeliveries {
  import opened Options
  import opened TaskQueue
  import opened JobExecutor
  import Rounds = JobRounds
  import Outcomes = JobOutcomes

  // The calls of a batch of rounds are those of its entries, one by one.
  lemma {:induction false} CallsOfEntries(entries: seq<Entry<State>>, replies: Uid -> Rounds.Replies, k: nat)
    requires k < |entries|
    ensures |AllCalls(entries, replies)| == |entries|
    ensures AllCalls(entries, replies)[k] == Rounds.Round(entries[k].data, replies(entries[k].uid)).calls
  {
    var n := |entries| - 1;
    if n > 0 { CallsOfEntries(entries[..n], replies, if k < n then k else 0); }
  }

  // What the job of an entry had stored last, and whether its abort was asked for.
  ghost function Stored(steps: seq<Step>, u: Uid): Option<State> { Rounds.LastStored(JobRun(steps, u)) }

  ghost predicate Aborted(steps: seq<Step>, u: Uid) { exists i :: 0 <= i < |steps| && IsAbort(steps[i], u) }

  lemma {:induction false} AbortedIff(steps: seq<Step>, u: Uid)
    ensures Rounds.AbortJob in JobRun(steps, u) <==> Aborted(steps, u)
  {
    if steps != [] {
      var n := |steps| - 1;
      AbortedIff(steps[..n], u);
      assert forall i | 0 <= i < n :: steps[..n][i] == steps[i];
      assert Rounds.AbortJob in JobSteps(steps[n], u) <==> IsAbort(steps[n], u);
    }
  }

  // What an entry carries is what its job's run has led to.
  lemma EntryData(steps: seq<Step>, t: Step, k: nat)
    requires t.RoundsOf? && k < |t.entries| && IsRun(History(steps) + Events(t)) && StartsOnce(steps, t.entries[k].uid)
    ensures var run := JobRun(steps, t.entries[k].uid);
            Rounds.IsRun(run) && t.entries[k].data == Range(Rounds.After(run).items)
  {
    var x := t.entries[k];
    FirstEvent(History(steps), Events(t));
    CommitView(History(steps), Commit(t.popper, t.entries), x.uid);
    EveryJobRuns(steps, x.uid);
  }

  // In every run of the executors, each entry delivered is answered as described for the state its
  // job stored last and for whether abortJob was called for it before.
  lemma EveryEntryIsAnswered(steps: seq<Step>, t: Step, k: nat)
    requires t.RoundsOf? && k < |t.entries| && IsRun(History(steps) + Events(t)) && StartsOnce(steps, t.entries[k].uid)
    requires Stored(steps, t.entries[k].uid).Some?
    ensures var u := t.entries[k].uid;
            Outcomes.Answers(Stored(steps, u).value, Aborted(steps, u), t.replies(u),
                             Rounds.Round(t.entries[k].data, t.replies(u)))
  {
    var u := t.entries[k].uid;
    EntryData(steps, t, k);
    AbortedIff(steps, u);
    Outcomes.RunAnswers(JobRun(steps, u), t.replies(u));
  }

  // So process calls onJobSuccess for an entry if and only if its job was started and not aborted
  // and its activity has finished with PASSED, and so on: the calls it returns are as described.
  lemma ProcessCalls(steps: seq<Step>, t: Step, k: nat)
    requires t.RoundsOf? && k < |t.entries| && IsRun(History(steps) + Events(t)) && StartsOnce(steps, t.entries[k].uid)
    requires Stored(steps, t.entries[k].uid).Some?
    ensures var u, calls := t.entries[k].uid, AllCalls(t.entries, t.replies);
            && |calls| == |t.entries|
            && Outcomes.TerminalCalls(Stored(steps, u).value, Aborted(steps, u), t.replies(u), calls[k])
            && Outcomes.OtherCalls(Stored(steps, u).value, Aborted(steps, u), t.replies(u), calls[k])
  {
    CallsOfEntries(t.entries, t.replies, k);
    EveryEntryIsAnswered(steps, t, k);
  }

  // ---------------------------------------------------------------- when it is looked at again

  lemma UpsertDue(h: seq<Event<State>>, v: Uid, due: int, s: State, u: Uid)
    requires IsRun(h)
    ensures IsRun(h + [Upsert(v, due, s)])
    ensures v == u ==> u in After(h + [Upsert(v, due, s)]).schedule && After(h + [Upsert(v, due, s)]).schedule[u] == due
    ensures v != u && u in After(h).schedule ==>
              u in After(h + [Upsert(v, due, s)]).schedule
              && After(h + [Upsert(v, due, s)]).schedule[u] == After(h).schedule[u]
  {
    Grown(h, Upsert(v, due, s));
  }

  // startJob and abortJob make the job due at the time they are called.
  lemma DueAtOnce(steps: seq<Step>, t: Step)
    requires IsRun(History(steps)) && (t.StartOf? || t.AbortOf?)
    ensures IsRun(History(steps) + Events(t))
    ensures var s := After(History(steps) + Events(t));
            t.key in s.schedule && s.schedule[t.key] == t.due
  {
    UpsertDue(History(steps), t.key, t.due, if t.StartOf? then Rounds.Queued(0) else Rounds.Abort, t.key);
  }

  lemma WrittenDue(h: seq<Event<State>>, v: Uid, o: Rounds.Outcome, now: int, u: Uid)
    requires IsRun(h) && (v == u ==> o.upsert.Some?) && (v != u ==> u in After(h).schedule)
    ensures IsRun(h + Written(v, o, now))
    ensures var s := After(h + Written(v, o, now)).schedule;
            u in s && s[u] == if v == u then now + 1000 * o.wait else After(h).schedule[u]
  {
    if o.upsert.Some? {
      UpsertDue(h, v, now + o.wait * 1000, o.upsert.value, u);
    } else {
      assert h + Written(v, o, now) == h;
    }
  }

  function WaitOf(x: Entry<State>, replies: Uid -> Rounds.Replies): nat { Rounds.Round(x.data, replies(x.uid)).wait }

  predicate Stores(x: Entry<State>, replies: Uid -> Rounds.Replies) {
    Rounds.Round(x.data, replies(x.uid)).upsert.Some?
  }

  lemma {:induction false} StoredDue(h: seq<Event<State>>, entries: seq<Entry<State>>, replies: Uid -> Rounds.Replies,
                                     now: int, k: nat)
    requires IsRun(h) && DistinctUids(entries) && k < |entries| && Stores(entries[k], replies)
    ensures IsRun(h + AllStored(entries, replies, now))
    ensures var s := After(h + AllStored(entries, replies, now)).schedule;
            entries[k].uid in s && s[entries[k].uid] == now + 1000 * WaitOf(entries[k], replies)
  {
    var n := |entries| - 1;
    var front, x := entries[..n], entries[n];
    var o := Rounds.Round(x.data, replies(x.uid));
    StoredView(h, front, replies, now, x.uid);
    if k < n { StoredDue(h, front, replies, now, k); }
    Associative(h, AllStored(front, replies, now), Written(x.uid, o, now));
    WrittenDue(h + AllStored(front, replies, now), x.uid, o, now, entries[k].uid);
  }

  // A job whose round stores a state is due that many seconds after the round: 10 for a new phase
  // or a poll, else those of its setback (JobOutcomes.Stores).
  lemma DueAfterRound(steps: seq<Step>, t: Step, k: nat)
    requires t.RoundsOf? && k < |t.entries| && IsRun(History(steps) + Events(t)) && Stores(t.entries[k], t.replies)
    ensures var s := After(History(steps) + Events(t)).schedule;
            t.entries[k].uid in s && s[t.entries[k].uid] == t.now + 1000 * WaitOf(t.entries[k], t.replies)
  {
    var h := History(steps);
    var e: Event<State> := Commit(t.popper, t.entries);
    FirstEvent(h, Events(t));
    CommitView(h, e, t.entries[k].uid);
    CommitDistinct(h, e);
    StoredDue(h + [e], t.entries, t.replies, t.now, k);
    Associative(h, [e], AllStored(t.entries, t.replies, t.now));
  }
}
