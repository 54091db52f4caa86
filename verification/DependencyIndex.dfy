// The index from dependency references to the sources that use them (DependencyStoragImpl).
module DependencyIndex {
  import opened DependencyFile

  type Source = int   // repository sources; only their identity matters

  // One update that reached its transaction: what it had read of the source before (after the
  // first `at` commits), and what it wrote. Other commits may lie between the two.
  datatype Commit = Commit(source: Source, at: nat, read: set<Ref>, refs: seq<Ref>)

  function ToSet(refs: seq<Ref>): set<Ref> { set r | r in refs }

  // ---------------------------------------------------------------- runs

  // The references of the last commit of a source.
  function Latest(history: seq<Commit>, source: Source): set<Ref> {
    if history == [] then {}
    else if history[|history| - 1].source == source then ToSet(history[|history| - 1].refs)
    else Latest(history[..|history| - 1], source)
  }

  // Every commit has read what was then the latest.
  predicate IsRun(history: seq<Commit>) {
    forall i | 0 <= i < |history| ::
      history[i].at <= i && history[i].read == Latest(history[..history[i].at], history[i].source)
  }

  // The commit adds the source to, or removes it from, the sources listed under a reference.
  predicate Changes(c: Commit, r: Ref, s: Source) { c.source == s && (r in c.read) != (r in c.refs) }

  // The source is listed under the reference: the last commit that changes that has added it.
  predicate Listed(history: seq<Commit>, r: Ref, s: Source) {
    if history == [] then false
    else if Changes(history[|history| - 1], r, s) then r in history[|history| - 1].refs
    else Listed(history[..|history| - 1], r, s)
  }

  ghost predicate LastCommit(history: seq<Commit>, i: nat, s: Source) {
    i < |history| && history[i].source == s && forall j | i < j < |history| :: history[j].source != s
  }

  ghost predicate LastChange(history: seq<Commit>, i: nat, r: Ref, s: Source) {
    i < |history| && Changes(history[i], r, s) && forall j | i < j < |history| :: !Changes(history[j], r, s)
  }

  lemma {:induction false} ListedIffAdded(history: seq<Commit>, r: Ref, s: Source)
    ensures Listed(history, r, s) <==> exists i: nat :: LastChange(history, i, r, s) && r in history[i].refs
  {
    if history != [] {
      var n := |history| - 1;
      var front := history[..n];
      ListedIffAdded(front, r, s);
      if Changes(history[n], r, s) {
        assert LastChange(history, n, r, s);
      } else {
        assert forall i: nat :: LastChange(front, i, r, s) <==> LastChange(history, i, r, s);
        assert forall i: nat | i < n :: front[i] == history[i];
      }
    }
  }

  lemma {:induction false} LatestIffWritten(history: seq<Commit>, r: Ref, s: Source)
    ensures r in Latest(history, s) <==> exists i: nat :: LastCommit(history, i, s) && r in history[i].refs
  {
    if history != [] {
      var n := |history| - 1;
      var front := history[..n];
      LatestIffWritten(front, r, s);
      if history[n].source == s {
        assert LastCommit(history, n, s);
      } else {
        assert forall i: nat :: LastCommit(front, i, s) <==> LastCommit(history, i, s);
        assert forall i: nat | i < n :: front[i] == history[i];
      }
    }
  }

  // ---------------------------------------------------------------- when the index is right

  // The source is listed under the reference exactly if its latest update has it.
  predicate IsRight(history: seq<Commit>, r: Ref, s: Source) { Listed(history, r, s) <==> r in Latest(history, s) }

  // A listing is right exactly when the last commit of the source and the last one that changed
  // the listing agree on the reference.
  lemma RightIff(history: seq<Commit>, r: Ref, s: Source)
    ensures IsRight(history, r, s)
       <==> ((exists i: nat :: LastChange(history, i, r, s) && r in history[i].refs)
             <==> exists i: nat :: LastCommit(history, i, s) && r in history[i].refs)
  {
    ListedIffAdded(history, r, s);
    LatestIffWritten(history, r, s);
  }

  // It is wrong exactly when the last update of the source left the listing alone although it had
  // read something else than what was listed by then.
  lemma {:induction false} WrongIff(history: seq<Commit>, r: Ref, s: Source)
    ensures !IsRight(history, r, s)
       <==> exists i: nat :: LastCommit(history, i, s) && !Changes(history[i], r, s)
                             && Listed(history[..i], r, s) != (r in history[i].read)
  {
    if history != [] {
      var n := |history| - 1;
      var front := history[..n];
      if history[n].source == s {
        assert LastCommit(history, n, s);
      } else {
        WrongIff(front, r, s);
        assert forall i: nat :: LastCommit(front, i, s) <==> LastCommit(history, i, s);
        assert forall i: nat | i < n :: front[i] == history[i] && front[..i] == history[..i];
      }
    }
  }

  ghost predicate AllRight(history: seq<Commit>) { forall r, s :: IsRight(history, r, s) }

  // Right after every commit.
  ghost predicate AlwaysRight(history: seq<Commit>) { forall n | 0 <= n <= |history| :: AllRight(history[..n]) }

  // References that came since the read are wanted, and wanted ones that were read are still there.
  predicate Harmless(read: set<Ref>, latest: set<Ref>, refs: set<Ref>) {
    latest - read <= refs && read * refs <= latest
  }

  predicate AllHarmless(history: seq<Commit>) {
    forall i | 0 <= i < |history| ::
      Harmless(history[i].read, Latest(history[..i], history[i].source), ToSet(history[i].refs))
  }

  lemma Append(history: seq<Commit>, c: Commit, r: Ref, s: Source)
    ensures Listed(history + [c], r, s) == if Changes(c, r, s) then r in c.refs else Listed(history, r, s)
    ensures Latest(history + [c], s) == if c.source == s then ToSet(c.refs) else Latest(history, s)
  {
    assert (history + [c])[..|history|] == history;
  }

  // A commit keeps a right index right exactly when what happened since its read is harmless.
  lemma CommitKeepsRight(history: seq<Commit>, c: Commit)
    requires AllRight(history)
    ensures AllRight(history + [c]) <==> Harmless(c.read, Latest(history, c.source), ToSet(c.refs))
  {
    forall r, s ensures IsRight(history + [c], r, s) <==>
        (s == c.source ==> (r in Latest(history, s) - c.read ==> r in c.refs)
                           && (r in c.read && r in c.refs ==> r in Latest(history, s))) {
      Append(history, c, r, s);
      assert IsRight(history, r, s);
    }
    if AllRight(history + [c]) {
      forall r ensures (r in Latest(history, c.source) - c.read ==> r in c.refs)
                       && (r in c.read && r in c.refs ==> r in Latest(history, c.source)) {
        assert IsRight(history + [c], r, c.source);
      }
    }
  }

  // The index is right throughout a run exactly when every commit in it is harmless.
  lemma {:induction false} AlwaysRightIff(history: seq<Commit>)
    ensures AlwaysRight(history) <==> AllHarmless(history)
  {
    if history != [] {
      var n := |history| - 1;
      var front := history[..n];
      AlwaysRightIff(front);
      assert forall m | 0 <= m <= n :: front[..m] == history[..m];
      assert forall i | 0 <= i < n :: front[i] == history[i];
      assert history[..n + 1] == history == front + [history[n]];
      assert AlwaysRight(history) <==> AlwaysRight(front) && AllRight(history);
      assert AlwaysRight(front) ==> AllRight(front) by { assert front[..n] == front; }
      if AllRight(front) { CommitKeepsRight(front, history[n]); }
    } else {
      assert AllRight(history[..0]);
    }
  }

  // No commit of the source lies between the read and the commit of another update of it.
  predicate Apart(history: seq<Commit>, s: Source) {
    forall i, j | 0 <= i < |history| && history[i].at <= j < i && history[i].source == s :: history[j].source != s
  }

  lemma {:induction false} LatestStays(history: seq<Commit>, n: nat, s: Source)
    requires n <= |history| && forall j | n <= j < |history| :: history[j].source != s
    ensures Latest(history, s) == Latest(history[..n], s)
  {
    if n < |history| {
      LatestStays(history[..|history| - 1], n, s);
      assert history[..|history| - 1][..n] == history[..n];
    } else {
      assert history[..n] == history;
    }
  }

  // A source whose updates do not overlap is listed rightly after every commit, whatever the
  // updates of other sources do.
  lemma {:induction false} ApartIsRight(history: seq<Commit>, s: Source, r: Ref, n: nat)
    requires IsRun(history) && Apart(history, s) && n <= |history|
    ensures IsRight(history[..n], r, s)
    decreases n
  {
    if n > 0 {
      var front, c := history[..n - 1], history[n - 1];
      ApartIsRight(history, s, r, n - 1);
      assert history[..n] == front + [c];
      Append(front, c, r, s);
      if c.source == s {
        LatestStays(front, c.at, s);
        assert front[..c.at] == history[..c.at];
      }
    }
  }

  // ---------------------------------------------------------------- Redis sets

  // Redis sets by key: a missing key reads as the empty set, and an emptied set loses its key.
  function Members<K, V>(m: map<K, set<V>>, k: K): set<V> { if k in m then m[k] else {} }

  function Put<K(!new), V>(m: map<K, set<V>>, k: K, members: set<V>): (r: map<K, set<V>>)
    ensures Members(r, k) == members && (k in r <==> members != {})
    ensures forall j | j != k :: (j in r <==> j in m) && (j in m ==> r[j] == m[j])
  {
    if members == {} then map j | j in m && j != k :: m[j] else m[k := members]
  }

  ghost predicate NoEmptySet<K(!new), V>(m: map<K, set<V>>) { forall k | k in m :: m[k] != {} }

  // _.difference
  function Without(s: seq<Ref>, t: seq<Ref>): (r: seq<Ref>)
    ensures forall x :: x in r <==> x in s && x !in t
  {
    if s == [] then []
    else
      assert s == [s[0]] + s[1..];
      (if s[0] in t then [] else [s[0]]) + Without(s[1..], t)
  }

  // Some order of a set's members, as smembers gives them.
  method Listing<T>(s: set<T>) returns (r: seq<T>)
    ensures forall x :: x in r <==> x in s
    ensures forall i, j | 0 <= i < j < |r| :: r[i] != r[j]
  {
    r := [];
    var rest := s;
    while rest != {}
      invariant forall x :: x in s <==> x in r || x in rest
      invariant forall x :: x in r ==> x !in rest
      invariant forall i, j | 0 <= i < j < |r| :: r[i] != r[j]
      decreases |rest|
    {
      var x :| x in rest;
      r, rest := r + [x], rest - {x};
    }
  }

  ghost predicate Forward(bySource: map<Source, set<Ref>>, history: seq<Commit>) {
    forall s :: Members(bySource, s) == Latest(history, s)
  }

  ghost predicate Backward(byRef: map<Ref, set<Source>>, history: seq<Commit>) {
    forall r, s :: s in Members(byRef, r) <==> Listed(history, r, s)
  }

  lemma ForwardAfter(before: map<Source, set<Ref>>, history: seq<Commit>, c: Commit)
    requires Forward(before, history)
    ensures Forward(Put(before, c.source, ToSet(c.refs)), history + [c])
  {
    assert (history + [c])[..|history|] == history;
  }

  // Adding to and removing from the sets of the two differences, taken against what was read.
  lemma BackwardAfter(before: map<Ref, set<Source>>, added: map<Ref, set<Source>>, after: map<Ref, set<Source>>,
                      history: seq<Commit>, c: Commit, toAdd: seq<Ref>, toRemove: seq<Ref>)
    requires Backward(before, history)
    requires forall r :: r in toAdd <==> r in c.refs && r !in c.read
    requires forall r :: r in toRemove <==> r in c.read && r !in c.refs
    requires forall k :: Members(added, k) == Members(before, k) + if k in toAdd then {c.source} else {}
    requires forall k :: Members(after, k) == Members(added, k) - if k in toRemove then {c.source} else {}
    ensures Backward(after, history + [c])
  {
    forall r, s ensures s in Members(after, r) <==> Listed(history + [c], r, s) {
      Append(history, c, r, s);
      assert s in Members(before, r) <==> Listed(history, r, s);
    }
  }

  class DependencyStorage {
    var bySource: map<Source, set<Ref>>   // dependencies-source:<source>
    var byRef: map<Ref, set<Source>>      // dependencies-refs:<ref>
    ghost var history: seq<Commit>

    ghost predicate Valid()
      reads this
    {
      && NoEmptySet(bySource) && NoEmptySet(byRef)
      && IsRun(history) && Forward(bySource, history) && Backward(byRef, history)
    }

    constructor ()
      ensures Valid() && history == []
    {
      bySource, byRef, history := map[], map[], [];
    }

    // update, first half: the read before the transaction
    method ReadExisting(source: Source) returns (existing: seq<Ref>)
      requires Valid()
      ensures ToSet(existing) == Latest(history, source)
    {
      existing := Listing(Members(bySource, source));
    }

    // update, second half: the transaction, with what was read after the first `at` commits
    method CommitUpdate(source: Source, refs: seq<Ref>, existing: seq<Ref>, ghost at: nat)
      requires Valid() && at <= |history| && ToSet(existing) == Latest(history[..at], source)
      modifies this
      ensures Valid() && history == old(history) + [Commit(source, at, ToSet(existing), refs)]
    {
      ghost var c := Commit(source, at, ToSet(existing), refs);
      var toAdd := Without(refs, existing);
      var toRemove := Without(existing, refs);
      RunExtends(history, c);
      ForwardAfter(bySource, history, c);
      bySource := Put(bySource, source, ToSet(refs));
      var added := AddTo(byRef, toAdd, source);
      ghost var before := byRef;
      byRef := RemoveFrom(added, toRemove, source);
      BackwardAfter(before, added, byRef, history, c, toAdd, toRemove);
      history := history + [c];
    }

    // update, with nothing in between
    method Update(source: Source, refs: seq<Ref>)
      requires Valid()
      modifies this
      ensures Valid()
      ensures history == old(history) + [Commit(source, |old(history)|, Latest(old(history), source), refs)]
    {
      var existing := ReadExisting(source);
      assert history[..|history|] == history;
      CommitUpdate(source, refs, existing, |history|);
    }

    method Lookup(refs: seq<Ref>) returns (sources: seq<Source>)
      requires Valid()
      ensures forall s :: s in sources <==> exists r :: r in refs && Listed(history, r, s)
      ensures forall i, j | 0 <= i < j < |sources| :: sources[i] != sources[j]
    {
      var all: seq<Source> := [];
      for k := 0 to |refs|
        invariant forall s :: s in all <==> exists j :: 0 <= j < k && Listed(history, refs[j], s)
      {
        var members := Listing(Members(byRef, refs[k]));
        all := all + members;
      }
      sources := Uniq(all);
    }
  }

  lemma RunExtends(history: seq<Commit>, c: Commit)
    requires IsRun(history) && c.at <= |history| && c.read == Latest(history[..c.at], c.source)
    ensures IsRun(history + [c])
  {
    var h := history + [c];
    forall i | 0 <= i < |h| ensures h[i].at <= i && h[i].read == Latest(h[..h[i].at], h[i].source) {
      assert h[..h[i].at] == history[..h[i].at];
    }
  }

  // So lookup answers with the sources whose latest update has one of the references, if the
  // updates of every source are apart.
  lemma LookupIsRight(history: seq<Commit>, refs: seq<Ref>, s: Source)
    requires IsRun(history) && Apart(history, s)
    ensures (exists r :: r in refs && Listed(history, r, s)) <==> exists r :: r in refs && r in Latest(history, s)
  {
    assert history[..|history|] == history;
    forall r ensures Listed(history, r, s) <==> r in Latest(history, s) { ApartIsRight(history, s, r, |history|); }
  }

  // Two updates of source 0 that both read before either commits: the second wants nothing, yet
  // the source stays listed under the reference the first one added.
  method StaleReadCanMiss(ref: Ref) returns (d: DependencyStorage, found: seq<Source>)
    ensures fresh(d) && d.Valid()
    ensures d.history == [Commit(0, 0, {}, [ref]), Commit(0, 0, {}, [])]
    ensures 0 in found && !IsRight(d.history, ref, 0)
  {
    d := new DependencyStorage();
    var first := d.ReadExisting(0);
    var second := d.ReadExisting(0);
    d.CommitUpdate(0, [ref], first, 0);
    ghost var h := d.history;
    assert h == [Commit(0, 0, {}, [ref])];
    d.CommitUpdate(0, [], second, 0);
    AddedAndKept(ref);
    found := d.Lookup([ref]);
    assert [ref][0] == ref;
  }

  // It still does after an update that nothing interrupts, and one that has the reference makes
  // the listing right again.
  method WrongUntilWanted(ref: Ref, other: Ref) returns (d: DependencyStorage, found: seq<Source>)
    requires ref != other
    ensures d.Valid() && 0 in found
    ensures d.history == [Commit(0, 0, {}, [ref]), Commit(0, 0, {}, []),
                          Commit(0, 2, {}, [other]), Commit(0, 3, {other}, [ref])]
    ensures !IsRight(d.history[..3], ref, 0) && IsRight(d.history, ref, 0)
  {
    var stale: seq<Source>;
    d, stale := StaleReadCanMiss(ref);
    ghost var h2 := d.history;
    AddedAndKept(ref);
    d.Update(0, [other]);
    ghost var h3 := d.history;
    Append(h2, h3[2], ref, 0);
    found := d.Lookup([ref]);
    assert [ref][0] == ref;
    Append(h2, h3[2], other, 0);
    d.Update(0, [ref]);
    assert ToSet([other]) == {other};
    Append(h3, d.history[3], ref, 0);
    assert d.history[..3] == h3;
  }

  lemma AddedAndKept(ref: Ref)
    ensures var h := [Commit(0, 0, {}, [ref]), Commit(0, 0, {}, [])];
            Listed(h, ref, 0) && Latest(h, 0) == {}
  {
    var c, k := Commit(0, 0, {}, [ref]), Commit(0, 0, {}, []);
    var none: seq<Commit> := [];
    Append(none, c, ref, 0);
    assert none + [c] == [c];
    Append([c], k, ref, 0);
    assert [c] + [k] == [c, k];
  }

  // sadd of one source to several keys
  method AddTo(m: map<Ref, set<Source>>, refs: seq<Ref>, source: Source) returns (r: map<Ref, set<Source>>)
    requires NoEmptySet(m)
    ensures NoEmptySet(r)
    ensures forall k :: Members(r, k) == Members(m, k) + if k in refs then {source} else {}
  {
    r := m;
    for i := 0 to |refs|
      invariant NoEmptySet(r)
      invariant forall k :: Members(r, k) == Members(m, k) + if k in refs[..i] then {source} else {}
    {
      assert refs[..i + 1] == refs[..i] + [refs[i]];
      r := Put(r, refs[i], Members(r, refs[i]) + {source});
    }
    assert refs[..|refs|] == refs;
  }

  // srem of one source from several keys
  method RemoveFrom(m: map<Ref, set<Source>>, refs: seq<Ref>, source: Source) returns (r: map<Ref, set<Source>>)
    requires NoEmptySet(m)
    ensures NoEmptySet(r)
    ensures forall k :: Members(r, k) == Members(m, k) - if k in refs then {source} else {}
  {
    r := m;
    for i := 0 to |refs|
      invariant NoEmptySet(r)
      invariant forall k :: Members(r, k) == Members(m, k) - if k in refs[..i] then {source} else {}
    {
      assert refs[..i + 1] == refs[..i] + [refs[i]];
      r := Put(r, refs[i], Members(r, refs[i]) - {source});
    }
    assert refs[..|refs|] == refs;
  }
}
