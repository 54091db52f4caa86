// VersionContainer: a trie of version segments.
module VersionTrie {
  import opened Options
  import opened Lexicographic
  import opened Versions

  datatype Trie = Trie(branches: seq<Holder>, releases: seq<int>)
  datatype Holder = Holder(index: int, model: Trie)

  const EMPTY := Trie([], [])

  // ---------------------------------------------------------------- add

  // branches.find(s => s.index === head), or the number of branches.
  function Find(branches: seq<Holder>, head: int): (i: nat)
    ensures i <= |branches| && (i < |branches| ==> branches[i].index == head)
    ensures forall j | 0 <= j < i :: branches[j].index != head
  {
    if branches == [] || branches[0].index == head then 0 else 1 + Find(branches[1..], head)
  }

  function Add(t: Trie, parts: seq<int>): Trie
    decreases |parts|
  {
    if parts == [] then t
    else if |parts| == 1 then
      if parts[0] in t.releases then t else t.(releases := t.releases + [parts[0]])
    else
      var i := Find(t.branches, parts[0]);
      if i < |t.branches| then
        t.(branches := t.branches[i := Holder(parts[0], Add(t.branches[i].model, parts[1..]))])
      else
        t.(branches := t.branches + [Holder(parts[0], Add(EMPTY, parts[1..]))])
  }

  // The version is stored.
  predicate Has(t: Trie, v: seq<int>)
    decreases |v|
  {
    if v == [] then false
    else if |v| == 1 then v[0] in t.releases
    else
      var i := Find(t.branches, v[0]);
      i < |t.branches| && Has(t.branches[i].model, v[1..])
  }

  // No index or release twice, and no empty branch.
  predicate WellFormed(t: Trie) {
    && (forall i, j | 0 <= i < j < |t.branches| :: t.branches[i].index != t.branches[j].index)
    && (forall i, j | 0 <= i < j < |t.releases| :: t.releases[i] != t.releases[j])
    && (forall i | 0 <= i < |t.branches| :: t.branches[i].model != EMPTY && WellFormed(t.branches[i].model))
  }

  lemma FindIndex(t: Trie, i: nat)
    requires WellFormed(t) && i < |t.branches|
    ensures Find(t.branches, t.branches[i].index) == i
  {
  }

  lemma FindAfterUpdate(branches: seq<Holder>, i: nat, m: Trie, head: int)
    requires i < |branches|
    requires forall j, k | 0 <= j < k < |branches| :: branches[j].index != branches[k].index
    ensures Find(branches[i := Holder(branches[i].index, m)], head) == Find(branches, head)
  {
    var f := Find(branches[i := Holder(branches[i].index, m)], head);
    var g := Find(branches, head);
    assert forall j | 0 <= j < |branches| :: branches[i := Holder(branches[i].index, m)][j].index == branches[j].index;
  }

  lemma FindAfterAppend(branches: seq<Holder>, h: Holder, head: int)
    requires Find(branches, h.index) == |branches|
    ensures Find(branches + [h], head)
         == if head == h.index || Find(branches, head) < |branches| then Find(branches, head) else |branches| + 1
  {
    var f, g := Find(branches + [h], head), Find(branches, head);
    assert forall j | 0 <= j < |branches| :: (branches + [h])[j] == branches[j];
    assert (branches + [h])[|branches|] == h;
  }

  lemma {:induction false} AddKeepsShape(t: Trie, v: seq<int>)
    requires WellFormed(t)
    ensures WellFormed(Add(t, v)) && (v != [] ==> Add(t, v) != EMPTY)
    decreases |v|
  {
    if |v| > 1 {
      var i := Find(t.branches, v[0]);
      if i < |t.branches| { AddKeepsShape(t.branches[i].model, v[1..]); } else { AddKeepsShape(EMPTY, v[1..]); }
    }
  }

  // add stores exactly one more version.
  lemma {:induction false} AddStores(t: Trie, v: seq<int>, w: seq<int>)
    requires WellFormed(t)
    ensures Has(Add(t, v), w) <==> Has(t, w) || (w == v && v != [])
    decreases |v|
  {
    if |v| > 1 {
      var i := Find(t.branches, v[0]);
      if |w| > 1 {
        if i < |t.branches| {
          FindAfterUpdate(t.branches, i, Add(t.branches[i].model, v[1..]), w[0]);
        } else {
          FindAfterAppend(t.branches, Holder(v[0], Add(EMPTY, v[1..])), w[0]);
        }
        if w[0] == v[0] {
          AddStores(if i < |t.branches| then t.branches[i].model else EMPTY, v[1..], w[1..]);
          EmptyHasNothing(w[1..]);
          assert w == [w[0]] + w[1..] && v == [v[0]] + v[1..];
        }
      }
    }
  }

  lemma EmptyHasNothing(w: seq<int>)
    ensures !Has(EMPTY, w)
  {
  }

  // ---------------------------------------------------------------- size

  function Size(t: Trie): nat
    decreases t, |t.branches| + 1
  {
    |t.releases| + SizeFirst(t, |t.branches|)
  }

  // The versions under the first n branches.
  function SizeFirst(t: Trie, n: nat): nat
    requires n <= |t.branches|
    decreases t, n
  {
    if n == 0 then 0 else SizeFirst(t, n - 1) + Size(t.branches[n - 1].model)
  }

  lemma {:induction false} SizeFirstSame(t: Trie, u: Trie, n: nat, i: nat, more: int)
    requires n <= |t.branches| && n <= |u.branches|
    requires forall j | 0 <= j < n && j != i :: t.branches[j] == u.branches[j]
    requires i < n ==> Size(u.branches[i].model) == Size(t.branches[i].model) + more
    ensures SizeFirst(u, n) == SizeFirst(t, n) + if i < n then more else 0
    decreases n
  {
    if n > 0 { SizeFirstSame(t, u, n - 1, i, more); }
  }

  // size goes up by one exactly when a new version is added.
  lemma {:induction false} AddCounts(t: Trie, v: seq<int>)
    requires WellFormed(t)
    ensures Size(Add(t, v)) == Size(t) + if v == [] || Has(t, v) then 0 else 1
    decreases |v|
  {
    var u := Add(t, v);
    if |v| == 1 {
      SizeFirstSame(t, u, |t.branches|, |t.branches|, 0);
    } else if |v| > 1 {
      var i := Find(t.branches, v[0]);
      if i < |t.branches| {
        AddCounts(t.branches[i].model, v[1..]);
        SizeFirstSame(t, u, |t.branches|, i, if Has(t, v) then 0 else 1);
      } else {
        AddCounts(EMPTY, v[1..]);
        EmptyHasNothing(v[1..]);
        SizeFirstSame(t, u, |t.branches|, |t.branches|, 0);
        assert Size(EMPTY) == 0;
      }
    }
  }

  // ---------------------------------------------------------------- getHighest

  // _.maxBy(branches within the bound, index), or the number of branches.
  function Highest(branches: seq<Holder>, max: Option<int>): (i: nat)
    ensures i <= |branches|
    ensures i < |branches| ==> Within(branches[i].index, max)
    ensures forall j | 0 <= j < |branches| && Within(branches[j].index, max) ::
              i < |branches| && branches[j].index <= branches[i].index
  {
    if branches == [] then 0
    else
      var n := |branches| - 1;
      var i := Highest(branches[..n], max);
      if Within(branches[n].index, max) then
        if i < n && branches[n].index <= branches[i].index then i else n
      else if i < n then i else n + 1
  }

  predicate Within(n: int, max: Option<int>) { max.None? || n <= max.value }

  function Max(s: seq<int>): (m: int)
    requires s != []
    ensures m in s && forall i | 0 <= i < |s| :: s[i] <= m
  {
    if |s| == 1 then s[0]
    else
      var m := Max(s[1..]);
      if s[0] > m then s[0] else m
  }

  function GetHighest(t: Trie, max: Option<int>): seq<int>
    decreases t
  {
    var i := Highest(t.branches, max);
    if i < |t.branches| then [t.branches[i].index] + GetHighest(t.branches[i].model, None)
    else if t.releases != [] then [Max(t.releases)] else []
  }

  function GetHighestVersion(t: Trie, max: Option<int>): Option<seq<int>> {
    if GetHighest(t, max) == [] then None else Some(GetHighest(t, max))
  }

  // The order in which getHighest prefers versions: at the first difference a version that goes
  // on beats one that ends there; otherwise the higher segment wins.
  predicate Beats(a: seq<int>, b: seq<int>) {
    if a == [] || b == [] then false
    else if |b| == 1 then |a| > 1 || a[0] > b[0]
    else |a| > 1 && (a[0] > b[0] || (a[0] == b[0] && Beats(a[1..], b[1..])))
  }

  lemma {:induction false} HighestWins(t: Trie, w: seq<int>)
    requires WellFormed(t) && t != EMPTY
    ensures Has(t, GetHighest(t, None))
    ensures Has(t, w) ==> w == GetHighest(t, None) || Beats(GetHighest(t, None), w)
    decreases t
  {
    var i := Highest(t.branches, None);
    if i < |t.branches| {
      var m := t.branches[i].model;
      FindIndex(t, i);
      HighestWins(m, if |w| > 1 then w[1..] else []);
      assert GetHighest(t, None)[1..] == GetHighest(m, None);
      if Has(t, w) && |w| > 1 {
        assert w == [w[0]] + w[1..];
        if w[0] == t.branches[i].index { assert Has(m, w[1..]); }
      }
    }
  }

  // ---------------------------------------------------------------- containers

  // The container of a list of versions (VersionContainer.fromVersions), as a specification.
  function Container(versions: seq<Version>): Trie {
    if versions == [] then EMPTY else Add(Container(versions[..|versions| - 1]), versions[|versions| - 1])
  }

  class VersionContainer {
    var model: Trie

    // fromVersions
    constructor FromVersions(versions: seq<Version>)
      ensures model == Container(versions)
    {
      model := EMPTY;
      new;
      for i := 0 to |versions|
        invariant model == Container(versions[..i])
      {
        assert versions[..i + 1][..i] == versions[..i];
        model := Add(model, versions[i]);
      }
      assert versions[..|versions|] == versions;
    }
  }

  lemma {:induction false} ContainerHolds(versions: seq<Version>, w: seq<int>)
    ensures WellFormed(Container(versions)) && Container(versions).releases == []
    ensures Has(Container(versions), w) <==> w in versions
    ensures Container(versions) == EMPTY <==> versions == []
  {
    if versions != [] {
      var front, last := versions[..|versions| - 1], versions[|versions| - 1];
      ContainerHolds(front, w);
      AddKeepsShape(Container(front), last);
      AddStores(Container(front), last, w);
      assert versions == front + [last];
    } else {
      EmptyHasNothing(w);
    }
  }

  function Distinct(versions: seq<Version>): set<Version> { set v | v in versions }

  lemma DistinctGrows(front: seq<Version>, last: Version)
    ensures |Distinct(front + [last])| == |Distinct(front)| + if last in front then 0 else 1
  {
    assert Distinct(front + [last]) == Distinct(front) + {last};
  }

  // size is the number of distinct versions, whatever the order and repetitions of the list.
  lemma {:induction false} SizeIsDistinctCount(versions: seq<Version>)
    ensures Size(Container(versions)) == |Distinct(versions)|
  {
    if versions != [] {
      var front, last := versions[..|versions| - 1], versions[|versions| - 1];
      SizeIsDistinctCount(front);
      ContainerHolds(front, last);
      AddCounts(Container(front), last);
      DistinctGrows(front, last);
      assert versions == front + [last];
    } else {
      assert Size(EMPTY) == 0;
    }
  }

  predicate InBound(v: seq<int>, max: Option<int>) { v != [] && Within(v[0], max) }

  // getHighest finds a stored version within the bound whenever there is one, and it is the one
  // the preference order puts above all others there; this holds for versions of any lengths.
  lemma GetHighestIsPreferred(versions: seq<Version>, max: Option<int>, w: Version)
    ensures w in versions && InBound(w, max) ==> GetHighestVersion(Container(versions), max).Some?
    ensures var r := GetHighestVersion(Container(versions), max);
            r.Some? ==> |r.value| > 1 && r.value in versions && InBound(r.value, max)
                        && (w in versions && InBound(w, max) ==> w == r.value || Beats(r.value, w))
  {
    var t := Container(versions);
    ContainerHolds(versions, w);
    var i := Highest(t.branches, max);
    if Has(t, w) && InBound(w, max) { assert i < |t.branches|; }
    if i < |t.branches| {
      var m := t.branches[i].model;
      var r := GetHighest(t, max);
      FindIndex(t, i);
      HighestWins(m, w[1..]);
      assert r[1..] == GetHighest(m, None);
      assert GetHighest(m, None) != [] by { EmptyNeverHas(m, GetHighest(m, None)); }
      assert Has(t, r);
      ContainerHolds(versions, r);
      if Has(t, w) && w[0] == t.branches[i].index { assert w == [w[0]] + w[1..]; }
    }
  }

  lemma EmptyNeverHas(t: Trie, v: seq<int>)
    requires Has(t, v)
    ensures v != []
  {
  }

  // ---------------------------------------------------------------- highest under compare

  // `v` ends where `r` goes on, below the same prefix, with a higher last segment.
  predicate ShorterButHigher(v: seq<int>, r: seq<int>) {
    0 < |v| < |r| && v[..|v| - 1] == r[..|v| - 1] && v[|v| - 1] > r[|v| - 1]
  }

  lemma {:induction false} BeatsOrLower(r: seq<int>, v: seq<int>)
    requires Beats(r, v)
    ensures Less(r, v) <==> ShorterButHigher(v, r)
  {
    if |v| > 1 && r[0] == v[0] {
      BeatsOrLower(r[1..], v[1..]);
      if |r| > |v| {
        assert r[1..][..|v| - 2] == r[..|v| - 1][1..] && v[1..][..|v| - 2] == v[..|v| - 1][1..];
        assert r[..|v| - 1] == [r[0]] + r[..|v| - 1][1..] && v[..|v| - 1] == [v[0]] + v[..|v| - 1][1..];
      }
    }
  }

  lemma {:induction false} BeatsIsAsymmetric(a: seq<int>, b: seq<int>)
    requires Beats(a, b)
    ensures !Beats(b, a)
  {
    if |b| > 1 && a[0] == b[0] { BeatsIsAsymmetric(a[1..], b[1..]); }
  }

  // `w` goes on where `m` ends: it is longer and has all segments of `m` but the last.
  predicate GoesOn(w: seq<int>, m: seq<int>) { 0 < |m| < |w| && w[..|m| - 1] == m[..|m| - 1] }

  lemma {:induction false} GoingOnBeats(w: seq<int>, m: seq<int>)
    requires GoesOn(w, m)
    ensures Beats(w, m)
  {
    if |m| > 1 {
      assert w[..|m| - 1][0] == m[..|m| - 1][0];
      assert w[1..][..|m| - 2] == w[..|m| - 1][1..] && m[1..][..|m| - 2] == m[..|m| - 1][1..];
      GoingOnBeats(w[1..], m[1..]);
    }
  }

  // `m` is the maximum under compare of the versions within the bound.
  ghost predicate IsMaximum(versions: seq<Version>, max: Option<int>, m: Version) {
    m in versions && InBound(m, max) && forall w: Version | w in versions && InBound(w, max) :: Difference(m, w) >= 0
  }

  // getHighest finds the maximum under compare exactly when no version within the bound goes on
  // where that maximum ends.
  lemma HighestUnderCompare(versions: seq<Version>, max: Option<int>, m: Version)
    requires IsMaximum(versions, max, m)
    ensures GetHighestVersion(Container(versions), max) == Some(m)
       <==> forall w: Version | w in versions && InBound(w, max) :: !GoesOn(w, m)
  {
    GetHighestIsPreferred(versions, max, m);
    var r := GetHighestVersion(Container(versions), max).value;
    if r == m {
      forall w: Version | w in versions && InBound(w, max) ensures !GoesOn(w, m) {
        GetHighestIsPreferred(versions, max, w);
        if GoesOn(w, m) {
          GoingOnBeats(w, m);
          BeatsIsAsymmetric(w, m);
        }
      }
    } else {
      CompareIsLexicographic(m, r);
      BeatsOrLower(r, m);
      assert r in versions && InBound(r, max) && GoesOn(r, m);
    }
  }

  // The bound admits a version exactly when there is such a maximum.
  lemma {:induction false} MaximumExists(versions: seq<Version>, max: Option<int>)
    ensures (exists m: Version :: IsMaximum(versions, max, m))
       <==> exists w: Version :: w in versions && InBound(w, max)
  {
    if versions != [] {
      var front, last := versions[..|versions| - 1], versions[|versions| - 1];
      MaximumExists(front, max);
      assert versions == front + [last];
      if exists m: Version :: IsMaximum(front, max, m) {
        var m: Version :| IsMaximum(front, max, m);
        LargerIsMaximum(front, last, max, m);
      } else if InBound(last, max) {
        CompareIsLexicographic(last, last);
        assert forall w: Version | w in front :: !InBound(w, max);
        assert IsMaximum(versions, max, last);
      }
    }
  }

  lemma LargerIsMaximum(front: seq<Version>, last: Version, max: Option<int>, m: Version)
    requires IsMaximum(front, max, m)
    ensures IsMaximum(front + [last], max, if InBound(last, max) && Difference(last, m) > 0 then last else m)
  {
    CompareIsTotalOrder(last, m, m);
    CompareIsLexicographic(last, last);
    forall w: Version | w in front && InBound(w, max) && Difference(last, m) > 0 ensures Difference(last, w) >= 0 {
      CompareIsTotalOrder(w, m, last);
      CompareIsTotalOrder(m, w, w);
      CompareIsTotalOrder(m, last, last);
      CompareIsTotalOrder(w, last, last);
    }
  }

  // Versions of one length: getHighest is the maximum under compare.
  lemma HighestOfEqualLength(versions: seq<Version>, max: Option<int>, n: nat, w: Version)
    requires forall v: Version | v in versions :: |v| == n
    requires w in versions && InBound(w, max)
    ensures var r := GetHighestVersion(Container(versions), max);
            r.Some? && r.value in versions && InBound(r.value, max) && Difference(r.value, w) >= 0
  {
    MaximumExists(versions, max);
    var m: Version :| IsMaximum(versions, max, m);
    HighestUnderCompare(versions, max, m);
  }

  // Of mixed lengths it need not be: 1.2.0 is preferred to the higher 1.5.
  lemma MixedLengthsCanMiss()
    ensures GetHighestVersion(Container([[1, 5], [1, 2, 0]]), None) == Some([1, 2, 0])
    ensures Difference([1, 2, 0], [1, 5]) < 0
  {
    var a: Version, b: Version := [1, 5], [1, 2, 0];
    assert a[1..] == [5] && b[1..] == [2, 0];
    assert !Beats(a, b);
    GetHighestIsPreferred([a, b], None, a);
    GetHighestIsPreferred([a, b], None, b);
  }
}
