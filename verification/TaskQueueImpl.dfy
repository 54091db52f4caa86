// TaskQueueImpl on its Redis structures: upsert, and the two phases of popExpired.
module TaskQueueImplementation {
  import opened SortedSets
  import opened TaskQueue

  // ---------------------------------------------------------------- data sets and data lists

  // `s` lists the members of the scored set `z`, lowest score first; no two scores are equal.
  ghost predicate Listed<T>(z: map<T, int>, s: seq<T>) {
    && (forall x | x in z :: x in s)
    && (forall i | 0 <= i < |s| :: s[i] in z)
    && (forall i, j | 0 <= i < j < |s| :: s[i] in z && s[j] in z && z[s[i]] < z[s[j]])
  }

  lemma ListedSnoc<T>(z: map<T, int>, s: seq<T>, last: T, score: int)
    requires Listed(z, s) && last !in z && forall x | x in z :: z[x] < score
    ensures Listed(z[last := score], s + [last])
  {
    var z', s' := z[last := score], s + [last];
    assert s'[|s|] == last;
    forall x | x in z' ensures x in s' { assert x == last || x in s; }
    forall i, j | 0 <= i < j < |s'| ensures s'[i] in z' && s'[j] in z' && z'[s'[i]] < z'[s'[j]] {
      assert s'[i] == s[i] && s[i] in z && (j < |s| ==> s[j] in z);
    }
  }

  lemma ListedFront<T>(z: map<T, int>, s: seq<T>)
    requires s != [] && Listed(z, s)
    ensures s[|s| - 1] in z && Listed(z - {s[|s| - 1]}, s[..|s| - 1])
    ensures forall x | x in z && x != s[|s| - 1] :: z[x] < z[s[|s| - 1]]
  {
    var front, last := s[..|s| - 1], s[|s| - 1];
    forall x | x in z && x != last ensures x in front && z[x] < z[last] {
      var i :| 0 <= i < |s| && s[i] == x;
      assert front[i] == x;
    }
  }

  lemma DropTwo<T>(z: map<T, int>, last: T, item: T)
    requires last in z
    ensures if last == item then z - {last} - {item} == z - {item}
            else (z - {last} - {item})[last := z[last]] == z - {item}
  {
  }

  lemma {:induction false} WithoutKeeps<T>(s: seq<T>, item: T, z: map<T, int>)
    requires Listed(z, s)
    ensures Listed(z - {item}, Without(s, item))
  {
    if s == [] {
      SameEmptiness(z, s);
    } else {
      var front, last := s[..|s| - 1], s[|s| - 1];
      ListedFront(z, s);
      WithoutKeeps(front, item, z - {last});
      DropTwo(z, last, item);
      if last != item {
        ListedSnoc(z - {last} - {item}, Without(front, item), last, z[last]);
      } else {
        assert Without(s, item) == Without(front, item);
      }
    }
  }

  // ZADD with a time later than all scores makes the item the newest of the list.
  lemma AddNewest<T>(z: map<T, int>, s: seq<T>, item: T, now: int)
    requires Listed(z, s) && forall x | x in z :: z[x] < now
    ensures Listed(z[item := now], Newest(s, item))
  {
    WithoutKeeps(s, item, z);
    ListedSnoc(z - {item}, Without(s, item), item, now);
    assert (z - {item})[item := now] == z[item := now];
  }

  lemma SameEmptiness<T>(z: map<T, int>, s: seq<T>)
    requires Listed(z, s)
    ensures s == [] <==> z == map[]
  {
    if s != [] { assert s[0] in z; }
    if z != map[] {
      assert z.Keys != {};
      var x :| x in z.Keys;
      assert x in s;
    }
  }

  lemma Peel<T>(z: map<T, int>, s: seq<T>, x: T)
    requires Listed(z, s) && x in z && forall y | y in z :: z[y] <= z[x]
    ensures s != [] && s[|s| - 1] == x && Listed(z - {x}, s[..|s| - 1])
  {
    assert x in s;
    ListedFront(z, s);
  }

  lemma TopExists<T>(z: map<T, int>, s: seq<T>)
    requires Listed(z, s) && z != map[]
    ensures exists x :: x in z && forall y | y in z :: z[y] <= z[x]
  {
    SameEmptiness(z, s);
    ListedFront(z, s);
    assert forall y | y in z :: z[y] <= z[s[|s| - 1]];
  }

  lemma Regroup<T>(left: seq<T>, r: seq<T>)
    requires left != []
    ensures left + r == left[..|left| - 1] + ([left[|left| - 1]] + r)
  {
    assert left == left[..|left| - 1] + [left[|left| - 1]];
  }

  lemma Move<T>(z: map<T, int>, left: seq<T>, x: T, r: seq<T>)
    requires Listed(z, left) && x in z && forall y | y in z :: z[y] <= z[x]
    ensures left != [] && Listed(z - {x}, left[..|left| - 1]) && left + r == left[..|left| - 1] + ([x] + r)
  {
    Peel(z, left, x);
    Regroup(left, r);
  }

  // ZRANGE 0 -1: the list is determined by the scored set.
  method List<T(==)>(z: map<T, int>, ghost s: seq<T>) returns (r: seq<T>)
    requires Listed(z, s)
    ensures r == s
  {
    r := [];
    var rest := z;
    ghost var left := s;
    while rest != map[]
      invariant Listed(rest, left) && s == left + r
      decreases |rest|
    {
      TopExists(rest, left);
      var x :| x in rest && forall y | y in rest :: rest[y] <= rest[x];
      Move(rest, left, x, r);
      left := left[..|left| - 1];
      rest := rest - {x};
      r := [x] + r;
    }
    SameEmptiness(rest, left);
  }

  // ---------------------------------------------------------------- the service

  function Members(uids: seq<Uid>): set<Uid> { set u | u in uids }

  lemma OneMoreMember(uids: seq<Uid>, i: nat)
    requires Distinct(uids) && i < |uids|
    ensures Members(uids[..i + 1]) == Members(uids[..i]) + {uids[i]} && uids[i] !in Members(uids[..i])
  {
    assert uids[..i + 1] == uids[..i] + [uids[i]];
  }

  ghost predicate Holds<T(!new)>(data: map<Uid, map<T, int>>, clock: int, lists: map<Uid, seq<T>>) {
    && data.Keys == lists.Keys
    && (forall u | u in data :: Listed(data[u], lists[u]) && forall x | x in data[u] :: data[u][x] <= clock)
  }

  lemma UpsertHolds<T(!new)>(data: map<Uid, map<T, int>>, clock: int, s: Store<T>, u: Uid, item: T, now: int)
    requires Holds(data, clock, s.data) && clock < now
    ensures var z := if u in data then data[u] else map[];
            Holds(data[u := z[item := now]], now, s.data[u := Newest(Items(s, u), item)])
  {
    var z := if u in data then data[u] else map[];
    AddNewest(z, Items(s, u), item, now);
  }

  // ZRANGE 0 until BYSCORE LIMIT 0 maxCount
  method FirstDue(schedule: ZSet, until: int, maxCount: nat) returns (uids: seq<Uid>)
    ensures IsExpired(schedule, until, maxCount, uids) && ReadsFirst(schedule, until, maxCount, uids)
  {
    var due := Due(schedule, until);
    var none: ZSet := map[];
    var all := Diff(due, none);
    assert due - none.Keys == due;
    uids := if maxCount < |all| then all[..maxCount] else all;
    ExpiredAreFirst(schedule, until, maxCount, uids);
  }

  class TaskQueueImpl<T(!new, ==)> {
    var schedule: ZSet                    // task:entries
    var data: map<Uid, map<T, int>>       // task:data:<uid>
    var handled: set<Uid>                 // task:handled:<uid>
    ghost var clock: int                  // the latest time an item was stored
    ghost var history: seq<Event<T>>

    ghost predicate Valid()
      reads this
    {
      && IsRun(history)
      && schedule == After(history).schedule && handled == After(history).handled
      && Holds(data, clock, After(history).data)
    }

    constructor ()
      ensures Valid() && history == []
    {
      schedule, data, handled, clock, history := map[], map[], {}, 0, [];
    }

    method Upsert(uid: Uid, due: int, item: T, now: int)
      requires Valid() && clock < now
      modifies this
      ensures Valid() && clock == now
      ensures history == old(history) + [TaskQueue.Upsert(uid, due, item)]
    {
      UpsertHolds(data, clock, After(history), uid, item, now);
      Grown(history, TaskQueue.Upsert(uid, due, item));
      schedule := schedule[uid := due];
      data := data[uid := (if uid in data then data[uid] else map[])[item := now]];
      handled := handled - {uid};
      clock := now;
      history := history + [TaskQueue.Upsert(uid, due, item)];
    }

    // popExpired, first phase
    method ReadExpired(maxCount: nat, until: int, ghost popper: nat) returns (uids: seq<Uid>)
      requires Valid() && popper !in After(history).pending
      modifies this`history
      ensures Valid()
      ensures history == old(history) + [Read(popper, until, maxCount, uids)]
      ensures ReadsFirst(schedule, until, maxCount, uids)
    {
      uids := FirstDue(schedule, until, maxCount);
      Grown(history, Read(popper, until, maxCount, uids));
      history := history + [Read(popper, until, maxCount, uids)];
    }

    // The ZRANGE and SET NX commands of the second phase.
    method Claim(uids: seq<Uid>, ghost s: Store<T>) returns (entries: seq<Entry<T>>)
      requires Distinct(uids) && handled == s.handled && Holds(data, clock, s.data)
      modifies this`handled
      ensures entries == Claimed(s, uids) && handled == s.handled + Members(uids)
    {
      entries := [];
      assert handled == s.handled + Members([]);
      for i := 0 to |uids|
        invariant entries == Claimed(s, uids[..i])
        invariant handled == s.handled + Members(uids[..i])
      {
        assert uids[..i + 1][..i] == uids[..i];
        OneMoreMember(uids, i);
        var range: seq<T> := [];
        if uids[i] in data { range := List(data[uids[i]], s.data[uids[i]]); }
        if uids[i] !in handled { entries := entries + [Entry(uids[i], Range(range))]; }
        handled := handled + {uids[i]};
      }
      assert uids[..|uids|] == uids;
    }

    // popExpired, second phase
    method CommitExpired(uids: seq<Uid>, maxCount: nat, ghost popper: nat)
        returns (entries: seq<Entry<T>>, hasMore: bool)
      requires Valid() && popper in After(history).pending && After(history).pending[popper] == uids
      modifies this`schedule, this`handled, this`history
      ensures Valid()
      ensures history == old(history) + [Commit(popper, entries)]
      ensures hasMore <==> uids != [] && (|entries| != |uids| || |uids| == maxCount)
    {
      ghost var s := After(history);
      RunKeepsInvariant(history);
      entries := Claim(uids, s);
      schedule := schedule - Members(uids);
      hasMore := uids != [] && (|entries| != |uids| || |uids| == maxCount);
      Grown(history, Commit(popper, entries));
      history := history + [Commit(popper, entries)];
    }
  }
}
