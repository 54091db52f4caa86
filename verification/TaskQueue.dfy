// The delayed task queue. An upsert is one transaction; popExpired is two: a read of the
// expired uids and, later, a transaction that claims them. Any number of poppers may be
// between their read and their commit. Scores of data items are strictly increasing times and
// nothing expires, so the data set of a uid is the list of its distinct items, oldest first.
module TaskQueue {
  import opened Options
  import opened SortedSets

  type Uid = Key

  datatype Entry<T> = Entry(uid: Uid, data: seq<T>)

  datatype Event<T> =
    | Upsert(uid: Uid, due: int, item: T)
    | Read(popper: nat, until: int, maxCount: nat, uids: seq<Uid>)
    | Commit(popper: nat, entries: seq<Entry<T>>)

  datatype Store<T> = Store(
    schedule: ZSet,               // task:entries
    data: map<Uid, seq<T>>,       // task:data:<uid>
    handled: set<Uid>,            // task:handled:<uid>
    pending: map<nat, seq<Uid>>)  // what each popper has read and not yet committed

  // ---------------------------------------------------------------- one step

  // ZADD of an item with the newest score: a known item moves to the end.
  function Without<T(==)>(items: seq<T>, item: T): seq<T> {
    if items == [] then []
    else Without(items[..|items| - 1], item) + if items[|items| - 1] == item then [] else [items[|items| - 1]]
  }

  function Newest<T(==)>(items: seq<T>, item: T): seq<T> { Without(items, item) + [item] }

  // ZRANGE 0 1000
  const RANGE := 1001
  function Range<T>(items: seq<T>): seq<T> { if |items| <= RANGE then items else items[..RANGE] }

  function Items<T>(s: Store<T>, u: Uid): seq<T> { if u in s.data then s.data[u] else [] }

  function Due(schedule: ZSet, until: int): ZSet { map u | u in schedule && 0 <= schedule[u] <= until :: schedule[u] }

  // ZRANGE BYSCORE 0 until LIMIT 0 maxCount
  ghost predicate IsExpired(schedule: ZSet, until: int, maxCount: nat, uids: seq<Uid>) {
    exists all :: IsRange(Due(schedule, until), all) && uids == if maxCount < |all| then all[..maxCount] else all
  }

  // The entries a commit hands out: of the uids read, those nobody has handled.
  function Claimed<T>(s: Store<T>, uids: seq<Uid>): seq<Entry<T>> {
    if uids == [] then []
    else
      var u := uids[|uids| - 1];
      Claimed(s, uids[..|uids| - 1]) + if u in s.handled then [] else [Entry(u, Range(Items(s, u)))]
  }

  ghost predicate Enabled<T(!new)>(s: Store<T>, e: Event<T>) {
    match e
    case Upsert(_, _, _) => true
    case Read(p, until, maxCount, uids) => p !in s.pending && IsExpired(s.schedule, until, maxCount, uids)
    case Commit(p, entries) => p in s.pending && entries == Claimed(s, s.pending[p])
  }

  ghost function Next<T>(s: Store<T>, e: Event<T>): Store<T>
    requires e.Commit? ==> e.popper in s.pending
  {
    match e
    case Upsert(u, due, item) =>
      s.(schedule := s.schedule[u := due], data := s.data[u := Newest(Items(s, u), item)], handled := s.handled - {u})
    case Read(p, _, _, uids) => s.(pending := s.pending[p := uids])
    case Commit(p, _) =>
      var uids := set u | u in s.pending[p];
      s.(schedule := s.schedule - uids, handled := s.handled + uids, pending := s.pending - {p})
  }

  // ---------------------------------------------------------------- runs

  ghost predicate IsRun<T(!new)>(h: seq<Event<T>>)
    decreases |h|, 0
  {
    h == [] || (IsRun(h[..|h| - 1]) && Enabled(After(h[..|h| - 1]), h[|h| - 1]))
  }

  ghost function After<T(!new)>(h: seq<Event<T>>): Store<T>
    requires IsRun(h)
    decreases |h|, 1
  {
    if h == [] then Store(map[], map[], {}, map[]) else Next(After(h[..|h| - 1]), h[|h| - 1])
  }

  predicate Upserts<T>(e: Event<T>, u: Uid) { e.Upsert? && e.uid == u }
  ghost predicate Delivers<T>(e: Event<T>, u: Uid) { e.Commit? && exists x | x in e.entries :: x.uid == u }

  predicate Distinct(uids: seq<Uid>) { forall i, j | 0 <= i < j < |uids| :: uids[i] != uids[j] }

  // A uid is scheduled or handled, never both; only such uids are ever read.
  ghost predicate Inv<T>(s: Store<T>) {
    && s.schedule.Keys !! s.handled
    && (forall p, u | p in s.pending && u in s.pending[p] :: u in s.schedule || u in s.handled)
    && (forall p | p in s.pending :: Distinct(s.pending[p]))
  }

  lemma {:induction false} ClaimedUids<T>(s: Store<T>, uids: seq<Uid>, u: Uid)
    ensures (exists x | x in Claimed(s, uids) :: x.uid == u) <==> u in uids && u !in s.handled
    ensures forall x | x in Claimed(s, uids) :: x.data == Range(Items(s, x.uid))
  {
    if uids != [] {
      var front, last := uids[..|uids| - 1], uids[|uids| - 1];
      ClaimedUids(s, front, u);
      assert uids == front + [last];
      if last !in s.handled { assert Entry(last, Range(Items(s, last))) in Claimed(s, uids); }
      assert forall x | x in Claimed(s, front) :: x in Claimed(s, uids);
    }
  }

  // No commit hands out one uid twice.
  lemma {:induction false} ClaimedOnce<T>(s: Store<T>, uids: seq<Uid>)
    requires Distinct(uids)
    ensures var c := Claimed(s, uids); forall i, j | 0 <= i < j < |c| :: c[i].uid != c[j].uid
  {
    if uids != [] {
      var front := uids[..|uids| - 1];
      ClaimedOnce(s, front);
      ClaimedUids(s, front, uids[|uids| - 1]);
      assert forall i | 0 <= i < |Claimed(s, front)| :: Claimed(s, front)[i] in Claimed(s, front);
    }
  }

  // It hands them out in the order they were read.
  lemma {:induction false} ClaimedInOrder<T>(s: Store<T>, uids: seq<Uid>, i: nat, j: nat) returns (p: nat, q: nat)
    requires i < j < |Claimed(s, uids)|
    ensures p < q < |uids| && uids[p] == Claimed(s, uids)[i].uid && uids[q] == Claimed(s, uids)[j].uid
  {
    var n := |uids| - 1;
    var front, c := uids[..n], Claimed(s, uids[..n]);
    if j < |c| {
      p, q := ClaimedInOrder(s, front, i, j);
    } else {
      assert c[i] in c;
      ClaimedUids(s, front, c[i].uid);
      p :| 0 <= p < n && front[p] == c[i].uid;
      q := n;
    }
  }

  lemma ExpiredAreDue(schedule: ZSet, until: int, maxCount: nat, uids: seq<Uid>)
    requires IsExpired(schedule, until, maxCount, uids)
    ensures forall u | u in uids :: u in schedule && 0 <= schedule[u] <= until
    ensures |uids| <= maxCount && Distinct(uids)
  {
    var all :| IsRange(Due(schedule, until), all) && uids == if maxCount < |all| then all[..maxCount] else all;
    RangeIsDistinct(Due(schedule, until), all);
  }

  lemma {:induction false} RunKeepsInvariant<T(!new)>(h: seq<Event<T>>)
    requires IsRun(h)
    ensures Inv(After(h))
  {
    if h != [] {
      var front, e := h[..|h| - 1], h[|h| - 1];
      RunKeepsInvariant(front);
      if e.Read? { ExpiredAreDue(After(front).schedule, e.until, e.maxCount, e.uids); }
    }
  }

  // ---------------------------------------------------------------- one uid

  // What one uid sees: an upsert schedules it with its item newest; a delivery needs it
  // scheduled, unschedules it and carries its items; no other step matters to it.
  lemma UidView<T(!new)>(h: seq<Event<T>>, e: Event<T>, u: Uid)
    requires IsRun(h) && Enabled(After(h), e)
    ensures IsRun(h + [e])
    ensures Upserts(e, u) ==>
              u in After(h + [e]).schedule && Items(After(h + [e]), u) == Newest(Items(After(h), u), e.item)
    ensures !Upserts(e, u) ==> Items(After(h + [e]), u) == Items(After(h), u)
    ensures Delivers(e, u) ==> u in After(h).schedule && u !in After(h + [e]).schedule
    ensures Delivers(e, u) ==> forall x | x in e.entries && x.uid == u :: x.data == Range(Items(After(h), u))
    ensures !Upserts(e, u) && !Delivers(e, u) ==>
              (u in After(h + [e]).schedule <==> u in After(h).schedule)
  {
    assert (h + [e])[..|h|] == h;
    RunKeepsInvariant(h);
    if e.Commit? {
      ClaimedUids(After(h), After(h).pending[e.popper], u);
      assert u in After(h).pending[e.popper] ==> u in After(h).schedule || u in After(h).handled;
    }
  }

  ghost predicate Awaiting<T>(h: seq<Event<T>>, u: Uid) {
    exists i: nat :: i < |h| && Upserts(h[i], u) && forall k | i < k < |h| :: !Delivers(h[k], u)
  }

  lemma Split<T(!new)>(h: seq<Event<T>>)
    requires h != [] && IsRun(h)
    ensures IsRun(h[..|h| - 1]) && Enabled(After(h[..|h| - 1]), h[|h| - 1])
    ensures h[..|h| - 1] + [h[|h| - 1]] == h
  {
  }

  // No lost wake-up and no spurious one: a uid is in the schedule exactly when some upsert of
  // it has not been followed by a delivery.
  lemma {:induction false} ScheduledIffAwaiting<T(!new)>(h: seq<Event<T>>, u: Uid)
    requires IsRun(h)
    ensures u in After(h).schedule <==> Awaiting(h, u)
  {
    if h != [] {
      var n := |h| - 1;
      var front, e := h[..n], h[n];
      Split(h);
      UidView(front, e, u);
      ScheduledIffAwaiting(front, u);
      if Upserts(e, u) {
        assert Awaiting(h, u);
      } else if Delivers(e, u) {
        assert !Awaiting(h, u);
      } else {
        AwaitingUnchanged(h, u);
      }
    }
  }

  lemma AwaitingUnchanged<T>(h: seq<Event<T>>, u: Uid)
    requires h != [] && !Upserts(h[|h| - 1], u) && !Delivers(h[|h| - 1], u)
    ensures Awaiting(h, u) <==> Awaiting(h[..|h| - 1], u)
  {
    var front := h[..|h| - 1];
    assert forall i | 0 <= i < |front| :: front[i] == h[i];
    if Awaiting(h, u) {
      var i: nat :| i < |h| && Upserts(h[i], u) && forall k | i < k < |h| :: !Delivers(h[k], u);
      assert Upserts(front[i], u);
    }
    if Awaiting(front, u) {
      var i: nat :| i < |front| && Upserts(front[i], u) && forall k | i < k < |front| :: !Delivers(front[k], u);
      assert Upserts(h[i], u);
    }
  }

  lemma {:induction false} Prefix<T(!new)>(h: seq<Event<T>>, n: nat)
    requires IsRun(h) && n <= |h|
    ensures IsRun(h[..n]) && (n < |h| ==> Enabled(After(h[..n]), h[n]))
  {
    if n == |h| {
      assert h[..n] == h;
    } else {
      var front := h[..|h| - 1];
      Prefix(front, n);
      assert front[..n] == h[..n];
      if n == |h| - 1 { assert front == h[..n]; } else { assert front[n] == h[n]; }
    }
  }

  // At most one delivery per upsert: every delivery of a uid is preceded by an upsert of it
  // with no delivery of it in between, whatever the poppers do.
  lemma DeliveredOncePerUpsert<T(!new)>(h: seq<Event<T>>, k: nat, u: Uid) returns (i: nat)
    requires IsRun(h) && k < |h| && Delivers(h[k], u)
    ensures i < k && Upserts(h[i], u)
    ensures forall m | i < m < k :: !Delivers(h[m], u)
  {
    Prefix(h, k);
    var front := h[..k];
    UidView(front, h[k], u);
    ScheduledIffAwaiting(front, u);
    i :| i < |front| && Upserts(front[i], u) && forall m | i < m < |front| :: !Delivers(front[m], u);
    forall m | i < m < k ensures !Delivers(h[m], u) { assert front[m] == h[m]; }
  }

  // ---------------------------------------------------------------- what a read finds

  // The uids scheduled from time 0 to `until`.
  function DueUids(schedule: ZSet, until: int): set<Uid> {
    set u | u in schedule && 0 <= schedule[u] <= until
  }

  // As many uids as are due, up to maxCount, in order of their times and then their bytes, and
  // none that is due and not among them comes before any of them.
  ghost predicate ReadsFirst(schedule: ZSet, until: int, maxCount: nat, uids: seq<Uid>) {
    && (forall u | u in uids :: u in schedule && 0 <= schedule[u] <= until)
    && |uids| == (if maxCount < |DueUids(schedule, until)| then maxCount else |DueUids(schedule, until)|)
    && (forall i, j | 0 <= i < j < |uids| ::
          schedule[uids[i]] < schedule[uids[j]] || (schedule[uids[i]] == schedule[uids[j]] && uids[i] < uids[j]))
    && (forall u, v | u in uids && v in DueUids(schedule, until) && v !in uids ::
          schedule[u] < schedule[v] || (schedule[u] == schedule[v] && u < v))
  }

  lemma ExpiredAreFirst(schedule: ZSet, until: int, maxCount: nat, uids: seq<Uid>)
    requires IsExpired(schedule, until, maxCount, uids)
    ensures ReadsFirst(schedule, until, maxCount, uids)
  {
    var due := Due(schedule, until);
    var all :| IsRange(due, all) && uids == if maxCount < |all| then all[..maxCount] else all;
    ExpiredAreDue(schedule, until, maxCount, uids);
    RangeIsDistinct(due, all);
    assert DueUids(schedule, until) == due.Keys;
    forall i, j | 0 <= i < j < |uids| ensures Before(due, uids[i], uids[j]) {}
    forall u, v | u in uids && v in DueUids(schedule, until) && v !in uids ensures Before(due, u, v) {
      var i :| 0 <= i < |uids| && uids[i] == u;
      assert v in all;
      var j :| 0 <= j < |all| && all[j] == v;
      assert i < j;
    }
  }

  // Every read of every run finds these.
  lemma EveryReadIsFirst<T(!new)>(h: seq<Event<T>>, r: nat)
    requires IsRun(h) && r < |h| && h[r].Read?
    ensures IsRun(h[..r]) && ReadsFirst(After(h[..r]).schedule, h[r].until, h[r].maxCount, h[r].uids)
  {
    Prefix(h, r);
    ExpiredAreFirst(After(h[..r]).schedule, h[r].until, h[r].maxCount, h[r].uids);
  }

  // The due uids that rank before one.
  function Ahead(schedule: ZSet, until: int, u: Uid): set<Uid>
    requires u in schedule
  {
    set v | v in schedule && 0 <= schedule[v] <= until
            && (schedule[v] < schedule[u] || (schedule[v] == schedule[u] && v < u))
  }

  lemma FirstIsRead(schedule: ZSet, until: int, maxCount: nat, uids: seq<Uid>, u: Uid)
    requires ReadsFirst(schedule, until, maxCount, uids)
    requires u in schedule && 0 <= schedule[u] <= until && |Ahead(schedule, until, u)| < maxCount
    ensures u in uids
  {
    var read := set v | v in uids;
    assert forall i, j | 0 <= i < j < |uids| :: uids[i] != uids[j];
    DistinctLength(uids);
    assert u in DueUids(schedule, until);
    if u !in uids {
      assert read <= Ahead(schedule, until, u);
      Smaller(read, Ahead(schedule, until, u));
      Smaller(read, DueUids(schedule, until) - {u});
    }
  }

  // A due uid with fewer than maxCount due ones before it is read by the next pop, and that pop
  // delivers it unless another one has in the meantime.
  lemma DueIsDelivered<T(!new)>(h: seq<Event<T>>, r: nat, k: nat, u: Uid)
    requires IsRun(h) && IsPop(h, r, k) && IsRun(h[..r])
    requires var s := After(h[..r]).schedule;
             u in s && 0 <= s[u] <= h[r].until && |Ahead(s, h[r].until, u)| < h[r].maxCount
    ensures u in h[r].uids && (Delivers(h[k], u) || exists m :: r < m < k && Delivers(h[m], u))
  {
    EveryReadIsFirst(h, r);
    FirstIsRead(After(h[..r]).schedule, h[r].until, h[r].maxCount, h[r].uids, u);
    PopDeliversIff(h, r, k, u);
    ScheduledIffAwaiting(h[..r], u);
    if forall m | r < m < k :: !Delivers(h[m], u) { StillAwaiting(h, r, k, u); }
  }

  lemma StillAwaiting<T(!new)>(h: seq<Event<T>>, r: nat, k: nat, u: Uid)
    requires r < k <= |h| && h[r].Read? && Awaiting(h[..r], u) && forall m | r < m < k :: !Delivers(h[m], u)
    ensures Awaiting(h[..k], u)
  {
    var front, later := h[..r], h[..k];
    assert forall m | 0 <= m < r :: front[m] == later[m];
    var i: nat :| i < |front| && Upserts(front[i], u) && forall m | i < m < |front| :: !Delivers(front[m], u);
    assert Upserts(later[i], u);
    forall m | i < m < k ensures !Delivers(later[m], u) {
      if m < r { assert !Delivers(front[m], u); }
    }
  }

  // The data handed out are the oldest 1001 items of a uid.
  lemma OldestItems<T>(items: seq<T>)
    ensures Range(items) <= items && |Range(items)| == if |items| < 1001 then |items| else 1001
  {
  }

  // ---------------------------------------------------------------- early delivery

  predicate CommitsOf<T>(e: Event<T>, p: nat) { e.Commit? && e.popper == p }

  // The read at `r` and the commit at `k` are the two phases of one pop.
  ghost predicate IsPop<T>(h: seq<Event<T>>, r: nat, k: nat) {
    && r < k < |h| && h[r].Read? && CommitsOf(h[k], h[r].popper)
    && forall m | r < m < k :: !CommitsOf(h[m], h[r].popper)
  }

  // The time set by the last upsert of the uid after position `from` and before `to`.
  function LastDue<T>(h: seq<Event<T>>, from: nat, to: nat, u: Uid): Option<int>
    requires to <= |h|
  {
    if to <= from + 1 then None
    else if Upserts(h[to - 1], u) then Some(h[to - 1].due)
    else LastDue(h, from, to - 1, u)
  }

  lemma {:induction false} ReadStays<T(!new)>(h: seq<Event<T>>, r: nat, m: nat, u: Uid)
    requires IsRun(h) && r < m <= |h| && h[r].Read?
    requires forall k | r < k < m :: !CommitsOf(h[k], h[r].popper)
    ensures IsRun(h[..m]) && h[r].popper in After(h[..m]).pending && After(h[..m]).pending[h[r].popper] == h[r].uids
    ensures u in h[r].uids && u in After(h[..m]).schedule ==>
              match LastDue(h, r, m, u)
              case None => After(h[..m]).schedule[u] <= h[r].until
              case Some(due) => After(h[..m]).schedule[u] == due
  {
    Prefix(h, m);
    Prefix(h, m - 1);
    assert h[..m][..m - 1] == h[..m - 1];
    if m - 1 == r {
      ExpiredAreDue(After(h[..r]).schedule, h[r].until, h[r].maxCount, h[r].uids);
    } else {
      ReadStays(h, r, m - 1, u);
    }
  }

  // A pop delivers a uid it has read exactly when, at its commit, some upsert of the uid has not
  // been followed by a delivery.
  lemma PopDeliversIff<T(!new)>(h: seq<Event<T>>, r: nat, k: nat, u: Uid)
    requires IsRun(h) && IsPop(h, r, k)
    ensures Delivers(h[k], u) <==> u in h[r].uids && Awaiting(h[..k], u)
  {
    ReadStays(h, r, k, u);
    Prefix(h, k);
    var s := After(h[..k]);
    ClaimedUids(s, h[r].uids, u);
    RunKeepsInvariant(h[..k]);
    ScheduledIffAwaiting(h[..k], u);
    assert u in h[r].uids ==> u in s.schedule || u in s.handled;
  }

  // A uid that a pop delivers is due by the time of its read exactly when it was not upserted
  // between the two phases, or the last such upsert set a time no later than that.
  lemma DeliveredOnTimeIff<T(!new)>(h: seq<Event<T>>, r: nat, k: nat, u: Uid)
    requires IsRun(h) && IsPop(h, r, k) && Delivers(h[k], u)
    ensures IsRun(h[..k]) && u in After(h[..k]).schedule
    ensures After(h[..k]).schedule[u] <= h[r].until
       <==> LastDue(h, r, k, u).None? || LastDue(h, r, k, u).value <= h[r].until
  {
    PopDeliversIff(h, r, k, u);
    ReadStays(h, r, k, u);
    Prefix(h, k);
    ScheduledIffAwaiting(h[..k], u);
  }

  // It does happen that a uid is delivered early: any upsert of a uid that a popper has read,
  // whatever time it sets, can be followed by that popper's commit, which delivers the uid.
  lemma PutOffTooLate<T(!new)>(h: seq<Event<T>>, p: nat, u: Uid, due: int, item: T) returns (entries: seq<Entry<T>>)
    requires IsRun(h) && p in After(h).pending && u in After(h).pending[p]
    ensures var put := h + [Upsert(u, due, item)];
            && IsRun(put) && u in After(put).schedule && After(put).schedule[u] == due
            && IsRun(put + [Commit(p, entries)]) && Delivers(Commit(p, entries), u)
  {
    var put := h + [Upsert(u, due, item)];
    Grown(h, Upsert(u, due, item));
    var s := After(put);
    entries := Claimed(s, s.pending[p]);
    ClaimedUids(s, s.pending[p], u);
    Grown(put, Commit(p, entries));
  }

  lemma OneExpired(schedule: ZSet, u: Uid)
    requires schedule == map[u := 0]
    ensures IsExpired(schedule, 5, 2, [u])
  {
    assert IsRange(Due(schedule, 5), [u]);
  }

  lemma ReadOne()
    ensures var h: seq<Event<int>> := [Upsert(1, 0, 7), Read(0, 5, 2, [1])];
            IsRun(h) && 0 in After(h).pending && After(h).pending[0] == [1]
  {
    var none: seq<Event<int>> := [];
    var upsert: Event<int>, read: Event<int> := Upsert(1, 0, 7), Read(0, 5, 2, [1]);
    Grown(none, upsert);
    assert none + [upsert] == [upsert];
    OneExpired(After([upsert]).schedule, 1);
    Grown([upsert], read);
    assert [upsert] + [read] == [upsert, read];
  }

  // Uid 1, due at 0, is read at 5, put off to 100, and delivered by the commit that follows.
  lemma EarlyDelivery() returns (entries: seq<Entry<int>>)
    ensures var h := [Upsert(1, 0, 7), Read(0, 5, 2, [1]), Upsert(1, 100, 8), Commit(0, entries)];
            && IsRun(h) && IsPop(h, 1, 3) && Delivers(h[3], 1)
            && IsRun(h[..3]) && 1 in After(h[..3]).schedule && After(h[..3]).schedule[1] == 100 > h[1].until
  {
    ReadOne();
    var h := [Upsert(1, 0, 7), Read(0, 5, 2, [1])];
    entries := PutOffTooLate(h, 0, 1, 100, 8);
    var put := h + [Upsert(1, 100, 8)];
    var all := [Upsert(1, 0, 7), Read(0, 5, 2, [1]), Upsert(1, 100, 8), Commit(0, entries)];
    assert put + [Commit(0, entries)] == all && all[..3] == put;
  }

  lemma Grown<T(!new)>(h: seq<Event<T>>, e: Event<T>)
    requires IsRun(h) && Enabled(After(h), e)
    ensures IsRun(h + [e]) && After(h + [e]) == Next(After(h), e)
  {
    assert (h + [e])[..|h|] == h;
  }
}
