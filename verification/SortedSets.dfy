// Redis sorted sets: members carry a score and are ranked by (score, member bytes).
module SortedSets {
  // Redis keys and members are byte strings, of which only identity and byte order matter.
  // They are represented by numbers in that order (any finitely many strings can be).
  type Key = int

  type ZSet = map<Key, int>

  predicate Before(z: ZSet, a: Key, b: Key)
    requires a in z && b in z
  {
    z[a] < z[b] || (z[a] == z[b] && a < b)
  }

  predicate IsMin(z: ZSet, m: Key) {
    m in z && forall b | b in z && b != m :: Before(z, m, b)
  }

  // `s` lists every member of `z` once, in rank order.
  ghost predicate IsRange(z: ZSet, s: seq<Key>) {
    && (forall i | 0 <= i < |s| :: s[i] in z)
    && (forall a | a in z :: a in s)
    && (forall i, j | 0 <= i < j < |s| :: s[i] in z && s[j] in z && Before(z, s[i], s[j]))
  }

  lemma BeforeTransitive(z: ZSet, a: Key, b: Key, c: Key)
    requires a in z && b in z && c in z && Before(z, a, b) && Before(z, b, c)
    ensures Before(z, a, c)
  {
  }

  lemma BeforeAsymmetric(z: ZSet, a: Key, b: Key)
    requires a in z && b in z && Before(z, a, b)
    ensures a != b && !Before(z, b, a)
  {
  }

  lemma {:induction false} MinExists(z: ZSet)
    requires z != map[]
    ensures exists m :: IsMin(z, m)
    decreases |z|
  {
    assert (forall a :: a !in z) ==> z == map[];
    var a: Key :| a in z;
    var rest := z - {a};
    if rest == map[] {
      assert z.Keys == rest.Keys + {a} == {a};
      assert IsMin(z, a);
    } else {
      MinExists(rest);
      var m :| IsMin(rest, m);
      if Before(z, a, m) {
        forall b | b in z && b != a ensures Before(z, a, b) {
          if b != m { assert b in rest; BeforeTransitive(z, a, m, b); }
        }
        assert IsMin(z, a);
      } else {
        forall b | b in z && b != m ensures Before(z, m, b) {
          if b != a { assert b in rest && Before(rest, m, b); }
        }
        assert IsMin(z, m);
      }
    }
  }

  lemma RangeIsDistinct(z: ZSet, s: seq<Key>)
    requires IsRange(z, s)
    ensures forall i, j | 0 <= i < j < |s| :: s[i] != s[j]
    ensures |s| == |z|
  {
    forall i, j | 0 <= i < j < |s| ensures s[i] != s[j] {
      BeforeAsymmetric(z, s[i], s[j]);
    }
    DistinctLength(s);
    assert forall x | x in s :: x in z.Keys;
    assert forall x | x in z.Keys :: x in s;
    assert (set x | x in s) == z.Keys;
  }

  lemma {:induction false} DistinctLength(s: seq<Key>)
    requires forall i, j | 0 <= i < j < |s| :: s[i] != s[j]
    ensures |set x | x in s| == |s|
  {
    if s != [] {
      var front := s[..|s| - 1];
      DistinctLength(front);
      assert (set x | x in s) == (set x | x in front) + {s[|s| - 1]};
    }
  }

  lemma {:induction false} Smaller<T>(a: set<T>, b: set<T>)
    requires a <= b
    ensures |a| <= |b|
  {
    if a != {} {
      var x :| x in a;
      Smaller(a - {x}, b - {x});
    }
  }

  // ZPOPMIN on a non-empty set.
  method PopMin(z: ZSet) returns (m: Key, rest: ZSet)
    requires z != map[]
    ensures IsMin(z, m) && rest == z - {m}
  {
    MinExists(z);
    m :| IsMin(z, m);
    rest := z - {m};
  }

  // `s` is the rank-ordered list of the members of `all` that rank before all of `rest`.
  ghost predicate IsPrefix(all: ZSet, s: seq<Key>, rest: ZSet) {
    && (forall a | a in rest :: a in all && rest[a] == all[a])
    && (forall a | a in all :: a in s || a in rest)
    && (forall i | 0 <= i < |s| :: s[i] in all)
    && (forall i, j | 0 <= i < j < |s| :: s[i] in all && s[j] in all && Before(all, s[i], s[j]))
    && (forall a, b | a in s && b in rest :: a in all && b in all && Before(all, a, b))
  }

  lemma PrefixGrows(all: ZSet, s: seq<Key>, rest: ZSet, m: Key)
    requires IsPrefix(all, s, rest) && IsMin(rest, m)
    ensures IsPrefix(all, s + [m], rest - {m})
  {
    var s', rest' := s + [m], rest - {m};
    assert forall i | 0 <= i < |s| :: s'[i] == s[i];
    forall a | a in all ensures a in s' || a in rest' {
      if a in s { var i :| 0 <= i < |s| && s[i] == a; assert s'[i] == a; }
      assert s'[|s|] == m;
    }
    forall a, b | a in s' && b in rest' ensures a in all && b in all && Before(all, a, b) {
      assert b in rest && (a in s || a == m) && (a == m ==> Before(rest, m, b));
    }
    forall i, j | 0 <= i < j < |s'| ensures s'[i] in all && s'[j] in all && Before(all, s'[i], s'[j]) {
      if j == |s| { assert s[i] in s && m in rest; }
    }
  }

  // The members of `z` without those of `minus`, in rank order (ZDIFF 2 z minus).
  method Diff(z: ZSet, minus: ZSet) returns (s: seq<Key>)
    ensures IsRange(z - minus.Keys, s)
  {
    var all := z - minus.Keys;
    var rest := all;
    s := [];
    while rest != map[]
      invariant IsPrefix(all, s, rest)
      decreases |rest|
    {
      ghost var before := rest;
      var m: Key;
      m, rest := PopMin(rest);
      PrefixGrows(all, s, before, m);
      s := s + [m];
    }
  }
}
