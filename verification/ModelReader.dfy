// RepositoryModelReader: queries on the repository model.
module ModelReader {
  import opened Options
  import opened Lexicographic
  import opened Versions
  import opened ReleaseModel
  import Trie = VersionTrie

  datatype BranchRef = MainRef | PatchRef(segments: seq<nat>)
  datatype VersionType = MinorRelease | PatchRelease
  datatype WriteBranch = WriteBranch(sha: Sha, branch: BranchRef, exists_: bool)

  const MAX_SAFE_INTEGER := 9007199254740991

  // ---------------------------------------------------------------- queries

  function Tops(root: Root): seq<Container> { [root.main] + root.majors }

  function MajorIndex(cs: seq<Container>, m: nat): (i: nat)
    ensures i <= |cs| && (i < |cs| ==> cs[i].major == m) && forall j | 0 <= j < i :: cs[j].major != m
  {
    if cs == [] || cs[0].major == m then 0 else 1 + MajorIndex(cs[1..], m)
  }

  function MinorIndex(ms: seq<Minor>, n: nat): (i: nat)
    ensures i <= |ms| && (i < |ms| ==> ms[i].minor == n) && forall j | 0 <= j < i :: ms[j].minor != n
  {
    if ms == [] || ms[0].minor == n then 0 else 1 + MinorIndex(ms[1..], n)
  }

  function ReleaseIndex(rs: seq<Release>, p: nat): (i: nat)
    ensures i <= |rs| && (i < |rs| ==> rs[i].patch == p) && forall j | 0 <= j < i :: rs[j].patch != p
  {
    if rs == [] || rs[0].patch == p then 0 else 1 + ReleaseIndex(rs[1..], p)
  }

  function FindMajor(root: Root, m: nat): Option<Container> {
    if root.main.major == m then Some(root.main)
    else
      var i := MajorIndex(root.majors, m);
      if i < |root.majors| then Some(root.majors[i]) else None
  }

  function FindNextMajor(root: Root, m: nat): Option<Container> {
    var i := MajorIndex(Tops(root), m);
    if 1 <= i < |Tops(root)| then Some(Tops(root)[i - 1]) else None
  }

  function FindBranch(root: Root, m: nat, minor: Option<nat>): Option<Sha> {
    match FindMajor(root, m)
    case None => None
    case Some(c) =>
      if minor.Some? then
        var i := MinorIndex(c.minors, minor.value);
        if i < |c.minors| then c.minors[i].branch else None
      else if root.main.major == m then Some(root.mainSha) else c.branch
  }

  function ReadSha(root: Root, m: nat): Option<Sha> {
    if root.main.major == m then Some(root.mainSha)
    else
      var i := MajorIndex(root.majors, m);
      if i == |root.majors| then None
      else if root.majors[i].branch.Some? then root.majors[i].branch
      else if i == 0 then root.main.start
      else root.majors[i - 1].start
  }

  function ResolveWriteBranch(root: Root, m: nat): Option<WriteBranch> {
    if root.main.major == m then Some(WriteBranch(root.mainSha, MainRef, true))
    else
      var i := MajorIndex(root.majors, m);
      if i == |root.majors| then None
      else if root.majors[i].branch.Some? then Some(WriteBranch(root.majors[i].branch.value, PatchRef([m]), true))
      else if i == 0 then
        if root.main.start.Some? then Some(WriteBranch(root.main.start.value, PatchRef([m]), false)) else None
      else
        var start := root.majors[i - 1].start;
        if start.Some? then Some(WriteBranch(start.value, PatchRef([m]), false)) else None
  }

  function NextRelease(c: Container, t: VersionType): (v: seq<nat>)
    ensures |v| == 3 && v[0] == c.major
  {
    if c.minors == [] then [c.major, 0, 0]
    else if c.minors[0].releases == [] then [c.major, c.minors[0].minor, 0]
    else if t.MinorRelease? then [c.major, c.minors[0].minor + 1, 0]
    else [c.major, c.minors[0].minor, c.minors[0].releases[0].patch + 1]
  }

  // None: the query throws.
  function NextVersion(root: Root, branch: BranchRef, t: VersionType): Option<seq<nat>> {
    match branch
    case MainRef => Some(NextRelease(root.main, t))
    case PatchRef(segments) =>
      if segments == [] then None
      else
        var i := MajorIndex(root.majors, segments[0]);
        if i < |root.majors| then Some(NextRelease(root.majors[i], t)) else None
  }

  // The first container within the limit that has a release.
  function FirstReleased(cs: seq<Container>, limit: int): (i: nat)
    ensures i <= |cs|
    ensures i < |cs| ==> cs[i].major <= limit && cs[i].minors != [] && cs[i].minors[0].releases != []
    ensures forall j | 0 <= j < i && cs[j].major <= limit :: cs[j].minors == [] || cs[j].minors[0].releases == []
  {
    if cs == [] then 0
    else if cs[0].major <= limit && cs[0].minors != [] && cs[0].minors[0].releases != [] then 0
    else 1 + FirstReleased(cs[1..], limit)
  }

  function Limit(max: Option<int>): int { if max.Some? then max.value else MAX_SAFE_INTEGER }

  function HighestVersion(root: Root, max: Option<int>): Option<Version> {
    var i := FirstReleased(Tops(root), Limit(max));
    if i == |Tops(root)| then None
    else
      var c := Tops(root)[i];
      Some([c.major, c.minors[0].minor, c.minors[0].releases[0].patch])
  }

  function VersionSha(root: Root, v: seq<int>): Option<Sha> {
    if |v| != 3 || v[0] < 0 || v[1] < 0 || v[2] < 0 then None
    else match FindMajor(root, v[0])
      case None => None
      case Some(c) =>
        var i := MinorIndex(c.minors, v[1]);
        if i == |c.minors| then None
        else
          var k := ReleaseIndex(c.minors[i].releases, v[2]);
          if k == |c.minors[i].releases| then None else Some(c.minors[i].releases[k].sha)
  }

  function ReleaseVersions(major: nat, minor: nat, rs: seq<Release>): seq<Version> {
    if rs == [] then [] else [[major, minor, rs[0].patch]] + ReleaseVersions(major, minor, rs[1..])
  }

  function MinorVersions(major: nat, ms: seq<Minor>): seq<Version> {
    if ms == [] then [] else ReleaseVersions(major, ms[0].minor, ms[0].releases) + MinorVersions(major, ms[1..])
  }

  function MajorVersions(cs: seq<Container>): seq<Version> {
    if cs == [] then [] else MinorVersions(cs[0].major, cs[0].minors) + MajorVersions(cs[1..])
  }

  function AllVersions(root: Root): seq<Version> { MajorVersions(Tops(root)) }

  // ---------------------------------------------------------------- shape of a converted model

  ghost predicate SortedReleases(rs: seq<Release>) {
    rs != [] && forall i, j | 0 <= i < j < |rs| :: rs[i].patch > rs[j].patch
  }

  ghost predicate SortedMinors(ms: seq<Minor>) {
    && (forall i, j | 0 <= i < j < |ms| :: ms[i].minor > ms[j].minor)
    && (forall i | 0 <= i < |ms| :: SortedReleases(ms[i].releases) && ms[i].branch.None?)
  }

  ghost predicate SortedMajors(cs: seq<Container>) {
    && (forall i, j | 0 <= i < j < |cs| :: cs[i].major > cs[j].major)
    && (forall i | 0 <= i < |cs| :: SortedMinors(cs[i].minors))
  }

  ghost predicate WellFormed(root: Root) { SortedMajors(Tops(root)) && root.main.branch.None? }

  lemma BuiltReleasesAreSorted(minor: nat, b: MinorBuilder)
    requires b.releases != map[]
    ensures SortedReleases(BuildMinor(minor, b).releases)
  {
    assert b.releases.Keys != {};
    var x :| x in b.releases.Keys;
    assert x in Descending(b.releases.Keys);
  }

  lemma BuiltMinorsAreSorted(b: Builder, major: nat, branch: Option<Sha>)
    requires forall n | n in b.minors :: b.minors[n].releases != map[] && b.minors[n].branch.None?
    ensures SortedMinors(BuildContainer(major, b, branch).minors)
  {
    var d := Descending(b.minors.Keys);
    var ms := BuildContainer(major, b, branch).minors;
    forall i | 0 <= i < |ms| ensures SortedReleases(ms[i].releases) && ms[i].branch.None? && ms[i].minor == d[i] {
      assert d[i] in d;
      BuiltReleasesAreSorted(d[i], b.minors[d[i]]);
    }
  }

  // Where the containers of a built model come from.
  lemma BuiltMajors(b: Builders, mainSha: Sha, i: nat)
    requires b.Keys != {} && i < |Tops(BuildRoot(b, mainSha))|
    ensures var c := Tops(BuildRoot(b, mainSha))[i];
            && c.major in b
            && c == BuildContainer(c.major, b[c.major], if i == 0 then None else b[c.major].branch)
            && (if i == 0 then c.major == Top(b.Keys)
                else i - 1 < |Descending(b.Keys - {Top(b.Keys)})|
                     && c.major == Descending(b.Keys - {Top(b.Keys)})[i - 1])
  {
    var d := Descending(b.Keys - {Top(b.Keys)});
    if i > 0 { assert d[i - 1] in d; }
  }

  lemma BuiltOrder(b: Builders, mainSha: Sha, i: nat, j: nat)
    requires b.Keys != {} && i < j < |Tops(BuildRoot(b, mainSha))|
    ensures Tops(BuildRoot(b, mainSha))[i].major > Tops(BuildRoot(b, mainSha))[j].major
  {
    BuiltMajors(b, mainSha, i);
    BuiltMajors(b, mainSha, j);
    var d := Descending(b.Keys - {Top(b.Keys)});
    assert d[j - 1] in d;
  }

  // Every converted model is sorted, highest first, on all three levels, without empty minors.
  lemma ConvertIsSorted(raw: Raw)
    requires Proper(raw)
    ensures WellFormed(Convert(raw))
  {
    CollectLookup(raw, [0, 0, 0]);
    BuiltIsSorted(Collect(raw), raw.mainSha);
  }

  lemma BuiltIsSorted(b: Builders, mainSha: Sha)
    requires Plain(b)
    ensures WellFormed(BuildRoot(b, mainSha))
  {
    var cs := Tops(BuildRoot(b, mainSha));
    if b.Keys == {} {
      assert cs == [Container(0, [], None, None)];
    } else {
      forall i | 0 <= i < |cs| ensures SortedMinors(cs[i].minors) {
        BuiltMajors(b, mainSha, i);
        BuiltMinorsAreSorted(b[cs[i].major], cs[i].major, if i == 0 then None else b[cs[i].major].branch);
      }
      forall i, j | 0 <= i < j < |cs| ensures cs[i].major > cs[j].major { BuiltOrder(b, mainSha, i, j); }
    }
  }

  // ---------------------------------------------------------------- lookups in a converted model

  lemma FoundMajor(b: Builders, mainSha: Sha, m: nat)
    requires b.Keys != {}
    ensures FindMajor(BuildRoot(b, mainSha), m)
         == if m in b then Some(BuildContainer(m, b[m], if m == Top(b.Keys) then None else b[m].branch)) else None
  {
    var root := BuildRoot(b, mainSha);
    var i := MajorIndex(root.majors, m);
    BuiltMajors(b, mainSha, 0);
    if m in b && m != Top(b.Keys) {
      var d := Descending(b.Keys - {Top(b.Keys)});
      assert m in d;
      var k :| 0 <= k < |d| && d[k] == m;
      assert root.majors[k].major == m;
    }
    if i < |root.majors| {
      BuiltMajors(b, mainSha, i + 1);
      BuiltOrder(b, mainSha, 0, i + 1);
      assert Tops(root)[i + 1] == root.majors[i];
    }
  }

  lemma FoundMinor(b: Builder, major: nat, branch: Option<Sha>, n: nat)
    ensures var ms := BuildContainer(major, b, branch).minors;
            var i := MinorIndex(ms, n);
            (i < |ms| <==> n in b.minors) && (i < |ms| ==> ms[i] == BuildMinor(n, b.minors[n]))
  {
    var ms := BuildContainer(major, b, branch).minors;
    var d := Descending(b.minors.Keys);
    var i := MinorIndex(ms, n);
    if i < |ms| { assert d[i] in d; }
    if n in b.minors {
      assert n in d;
      var k :| 0 <= k < |d| && d[k] == n;
      assert ms[k].minor == n;
    }
  }

  lemma FoundRelease(n: nat, b: MinorBuilder, p: nat)
    ensures var rs := BuildMinor(n, b).releases;
            var i := ReleaseIndex(rs, p);
            (i < |rs| <==> p in b.releases) && (i < |rs| ==> rs[i].sha == b.releases[p])
  {
    var rs := BuildMinor(n, b).releases;
    var d := Descending(b.releases.Keys);
    var i := ReleaseIndex(rs, p);
    if i < |rs| { assert d[i] in d; }
    if p in b.releases {
      assert p in d;
      var k :| 0 <= k < |d| && d[k] == p;
      assert rs[k].patch == p;
    }
  }

  // versionSha answers with the last tag of that version, and only for tagged versions.
  lemma VersionShaIsLastTag(raw: Raw, v: seq<nat>)
    requires Proper(raw) && |v| == 3
    ensures VersionSha(Convert(raw), v) == LastRelease(raw.releaseTags, v)
  {
    var b := Collect(raw);
    CollectLookup(raw, v);
    if b.Keys == {} {
      assert VersionSha(Convert(raw), v).None?;
    } else {
      FoundMajor(b, raw.mainSha, v[0]);
      if v[0] in b {
        FoundMinor(b[v[0]], v[0], if v[0] == Top(b.Keys) then None else b[v[0]].branch, v[1]);
        if v[1] in b[v[0]].minors { FoundRelease(v[1], b[v[0]].minors[v[1]], v[2]); }
      }
    }
  }

  // The two-number patch branches the name pattern allows are read as branches of their major:
  // no converted model has a branch on a minor.
  lemma MinorBranchesAreLost(raw: Raw, m: nat, n: nat)
    requires Proper(raw)
    ensures FindBranch(Convert(raw), m, Some(n)).None?
  {
    ConvertIsSorted(raw);
    var root := Convert(raw);
    var j := MajorIndex(root.majors, m);
    assert Tops(root)[0] == root.main;
    if j < |root.majors| { assert Tops(root)[j + 1] == root.majors[j]; }
  }

  // ---------------------------------------------------------------- allVersions

  // `w` is the version at these positions of the tree.
  ghost predicate At(root: Root, w: seq<int>, i: nat, j: nat, k: nat) {
    && i < |Tops(root)| && j < |Tops(root)[i].minors| && k < |Tops(root)[i].minors[j].releases|
    && w == [Tops(root)[i].major, Tops(root)[i].minors[j].minor, Tops(root)[i].minors[j].releases[k].patch]
  }

  lemma {:induction false} InReleases(a: nat, n: nat, rs: seq<Release>, w: Version)
    ensures w in ReleaseVersions(a, n, rs) <==> exists k :: 0 <= k < |rs| && w == [a, n, rs[k].patch]
  {
    if rs != [] {
      InReleases(a, n, rs[1..], w);
      if exists k :: 0 <= k < |rs[1..]| && w == [a, n, rs[1..][k].patch] {
        var k :| 0 <= k < |rs[1..]| && w == [a, n, rs[1..][k].patch];
        assert rs[k + 1] == rs[1..][k];
      }
      forall k | 0 <= k < |rs| && w == [a, n, rs[k].patch] ensures w in ReleaseVersions(a, n, rs) {
        if k > 0 { assert rs[1..][k - 1] == rs[k]; }
      }
    }
  }

  lemma {:induction false} InMinors(a: nat, ms: seq<Minor>, w: Version)
    ensures w in MinorVersions(a, ms)
       <==> exists j :: 0 <= j < |ms| && w in ReleaseVersions(a, ms[j].minor, ms[j].releases)
  {
    if ms != [] {
      InMinors(a, ms[1..], w);
      if exists j :: 0 <= j < |ms[1..]| && w in ReleaseVersions(a, ms[1..][j].minor, ms[1..][j].releases) {
        var j :| 0 <= j < |ms[1..]| && w in ReleaseVersions(a, ms[1..][j].minor, ms[1..][j].releases);
        assert ms[j + 1] == ms[1..][j];
      }
      forall j | 0 <= j < |ms| && w in ReleaseVersions(a, ms[j].minor, ms[j].releases)
        ensures w in MinorVersions(a, ms)
      {
        if j > 0 { assert ms[1..][j - 1] == ms[j]; }
      }
    }
  }

  lemma {:induction false} InMajors(cs: seq<Container>, w: Version)
    ensures w in MajorVersions(cs) <==> exists i :: 0 <= i < |cs| && w in MinorVersions(cs[i].major, cs[i].minors)
  {
    if cs != [] {
      InMajors(cs[1..], w);
      if exists i :: 0 <= i < |cs[1..]| && w in MinorVersions(cs[1..][i].major, cs[1..][i].minors) {
        var i :| 0 <= i < |cs[1..]| && w in MinorVersions(cs[1..][i].major, cs[1..][i].minors);
        assert cs[i + 1] == cs[1..][i];
      }
      forall i | 0 <= i < |cs| && w in MinorVersions(cs[i].major, cs[i].minors) ensures w in MajorVersions(cs) {
        if i > 0 { assert cs[1..][i - 1] == cs[i]; }
      }
    }
  }

  lemma ListedAt(root: Root, w: Version) returns (i: nat, j: nat, k: nat)
    requires w in AllVersions(root)
    ensures At(root, w, i, j, k)
  {
    InMajors(Tops(root), w);
    i :| 0 <= i < |Tops(root)| && w in MinorVersions(Tops(root)[i].major, Tops(root)[i].minors);
    var c := Tops(root)[i];
    InMinors(c.major, c.minors, w);
    j :| 0 <= j < |c.minors| && w in ReleaseVersions(c.major, c.minors[j].minor, c.minors[j].releases);
    InReleases(c.major, c.minors[j].minor, c.minors[j].releases, w);
    k :| 0 <= k < |c.minors[j].releases| && w == [c.major, c.minors[j].minor, c.minors[j].releases[k].patch];
  }

  lemma AtListed(root: Root, w: Version, i: nat, j: nat, k: nat)
    requires At(root, w, i, j, k)
    ensures w in AllVersions(root)
  {
    var c := Tops(root)[i];
    InReleases(c.major, c.minors[j].minor, c.minors[j].releases, w);
    InMinors(c.major, c.minors, w);
    InMajors(Tops(root), w);
  }

  ghost predicate FromHighest(vs: seq<Version>) { forall i, j | 0 <= i < j < |vs| :: Less(vs[j], vs[i]) }

  lemma DescendingBoth(a: seq<Version>, b: seq<Version>)
    requires FromHighest(a) && FromHighest(b) && forall v, w | v in a && w in b :: Less(w, v)
    ensures FromHighest(a + b)
  {
    var ab := a + b;
    forall i, j | 0 <= i < j < |ab| ensures Less(ab[j], ab[i]) {
      if j < |a| { assert Less(a[j], a[i]); }
      else if i < |a| { assert ab[i] in a && ab[j] in b; }
      else { assert Less(b[j - |a|], b[i - |a|]); }
    }
  }

  lemma {:induction false} ReleasesDescend(a: nat, n: nat, rs: seq<Release>)
    requires forall i, j | 0 <= i < j < |rs| :: rs[i].patch > rs[j].patch
    ensures FromHighest(ReleaseVersions(a, n, rs))
  {
    if rs != [] {
      ReleasesDescend(a, n, rs[1..]);
      var first: Version := [a, n, rs[0].patch];
      forall w | w in ReleaseVersions(a, n, rs[1..]) ensures Less(w, first) {
        InReleases(a, n, rs[1..], w);
        ThreeLess(w, first);
      }
      DescendingBoth([first], ReleaseVersions(a, n, rs[1..]));
    }
  }

  lemma {:induction false} MinorsDescend(a: nat, ms: seq<Minor>)
    requires SortedMinors(ms)
    ensures FromHighest(MinorVersions(a, ms))
  {
    if ms != [] {
      var head := ReleaseVersions(a, ms[0].minor, ms[0].releases);
      MinorsDescend(a, ms[1..]);
      assert SortedReleases(ms[0].releases);
      ReleasesDescend(a, ms[0].minor, ms[0].releases);
      forall v, w | v in head && w in MinorVersions(a, ms[1..]) ensures Less(w, v) { MinorBelow(a, ms, v, w); }
      DescendingBoth(head, MinorVersions(a, ms[1..]));
    }
  }

  lemma MinorBelow(a: nat, ms: seq<Minor>, v: Version, w: Version)
    requires SortedMinors(ms) && ms != []
    requires v in ReleaseVersions(a, ms[0].minor, ms[0].releases) && w in MinorVersions(a, ms[1..])
    ensures Less(w, v)
  {
    InReleases(a, ms[0].minor, ms[0].releases, v);
    InMinors(a, ms[1..], w);
    var j :| 0 <= j < |ms[1..]| && w in ReleaseVersions(a, ms[1..][j].minor, ms[1..][j].releases);
    InReleases(a, ms[1..][j].minor, ms[1..][j].releases, w);
    assert ms[0].minor > ms[j + 1].minor;
    ThreeLess(w, v);
  }

  lemma {:induction false} MajorsDescend(cs: seq<Container>)
    requires SortedMajors(cs)
    ensures FromHighest(MajorVersions(cs))
  {
    if cs != [] {
      var head := MinorVersions(cs[0].major, cs[0].minors);
      MajorsDescend(cs[1..]);
      assert SortedMinors(cs[0].minors);
      MinorsDescend(cs[0].major, cs[0].minors);
      forall v, w | v in head && w in MajorVersions(cs[1..]) ensures Less(w, v) { MajorBelow(cs, v, w); }
      DescendingBoth(head, MajorVersions(cs[1..]));
    }
  }

  lemma FirstNumber(a: nat, ms: seq<Minor>, v: Version)
    requires v in MinorVersions(a, ms)
    ensures |v| == 3 && v[0] == a
  {
    InMinors(a, ms, v);
    var j :| 0 <= j < |ms| && v in ReleaseVersions(a, ms[j].minor, ms[j].releases);
    InReleases(a, ms[j].minor, ms[j].releases, v);
  }

  lemma MajorBelow(cs: seq<Container>, v: Version, w: Version)
    requires SortedMajors(cs) && cs != []
    requires v in MinorVersions(cs[0].major, cs[0].minors) && w in MajorVersions(cs[1..])
    ensures Less(w, v)
  {
    FirstNumber(cs[0].major, cs[0].minors, v);
    InMajors(cs[1..], w);
    var i :| 0 <= i < |cs[1..]| && w in MinorVersions(cs[1..][i].major, cs[1..][i].minors);
    FirstNumber(cs[1..][i].major, cs[1..][i].minors, w);
    assert cs[0].major > cs[i + 1].major;
  }

  // allVersions lists them from the highest to the lowest, each once.
  lemma AllVersionsDescend(root: Root)
    requires WellFormed(root)
    ensures var all := AllVersions(root); forall i, j | 0 <= i < j < |all| :: Less(all[j], all[i])
  {
    MajorsDescend(Tops(root));
  }

  // allVersions lists exactly the versions versionSha knows.
  lemma ListedIffKnown(root: Root, w: Version)
    requires WellFormed(root)
    ensures w in AllVersions(root) <==> VersionSha(root, w).Some?
  {
    if w in AllVersions(root) {
      var i, j, k := ListedAt(root, w);
      FoundAt(root, w, i, j, k);
    }
    if VersionSha(root, w).Some? {
      var i := if root.main.major == w[0] then 0 else 1 + MajorIndex(root.majors, w[0]);
      var c := Tops(root)[i];
      var j := MinorIndex(c.minors, w[1]);
      var k := ReleaseIndex(c.minors[j].releases, w[2]);
      assert w == [w[0], w[1], w[2]];
      AtListed(root, w, i, j, k);
    }
  }

  lemma FoundAt(root: Root, w: Version, i: nat, j: nat, k: nat)
    requires WellFormed(root) && At(root, w, i, j, k)
    ensures FindMajor(root, w[0]) == Some(Tops(root)[i])
    ensures MinorIndex(Tops(root)[i].minors, w[1]) == j && ReleaseIndex(Tops(root)[i].minors[j].releases, w[2]) == k
    ensures VersionSha(root, w).Some?
  {
    assert Tops(root)[0] == root.main;
    assert forall x | 0 <= x < |root.majors| :: root.majors[x] == Tops(root)[x + 1];
    assert SortedMinors(Tops(root)[i].minors) && SortedReleases(Tops(root)[i].minors[j].releases);
  }

  // ---------------------------------------------------------------- highestVersion

  lemma ThreeLess(a: seq<int>, b: seq<int>)
    requires |a| == |b| == 3
    ensures Less(a, b) <==> a[0] < b[0] || (a[0] == b[0] && (a[1] < b[1] || (a[1] == b[1] && a[2] < b[2])))
  {
    assert a[1..][1..] == [a[2]] && b[1..][1..] == [b[2]];
    assert Less([a[2]], [b[2]]) <==> a[2] < b[2];
    assert Less(a[1..], b[1..]) <==> a[1] < b[1] || (a[1] == b[1] && Less(a[1..][1..], b[1..][1..]));
  }

  // The releases of a container, compared with its first one.
  lemma FirstIsHighest(root: Root, w: Version, i: nat, j: nat, k: nat)
    requires WellFormed(root) && At(root, w, i, j, k)
    ensures var c := Tops(root)[i];
            && c.minors[0].releases != []
            && (w[1] < c.minors[0].minor || (w[1] == c.minors[0].minor && w[2] <= c.minors[0].releases[0].patch))
  {
    var c := Tops(root)[i];
    assert SortedMinors(c.minors) && SortedReleases(c.minors[0].releases) && SortedReleases(c.minors[j].releases);
  }

  // highestVersion(max) is the maximum under compare of the versions whose major is within the
  // limit, and there is none exactly when it answers undefined.
  lemma HighestVersionIsMaximum(root: Root, max: Option<int>, w: Version)
    requires WellFormed(root)
    ensures Limit(max) == if max.Some? then max.value else 9007199254740991
    ensures w in AllVersions(root) && w[0] <= Limit(max) ==>
              HighestVersion(root, max).Some? && Difference(HighestVersion(root, max).value, w) >= 0
    ensures HighestVersion(root, max).Some? ==>
              HighestVersion(root, max).value in AllVersions(root) && HighestVersion(root, max).value[0] <= Limit(max)
              && |HighestVersion(root, max).value| == 3
  {
    var cs := Tops(root);
    var x := FirstReleased(cs, Limit(max));
    if x < |cs| { AtListed(root, HighestVersion(root, max).value, x, 0, 0); }
    if w in AllVersions(root) && w[0] <= Limit(max) {
      var i, j, k := ListedAt(root, w);
      FirstIsHighest(root, w, i, j, k);
      var r := HighestVersion(root, max).value;
      ThreeLess(r, w);
      CompareIsLexicographic(r, w);
    }
  }

  predicate SafeMajors(root: Root) {
    forall i | 0 <= i < |Tops(root)| :: Tops(root)[i].major <= MAX_SAFE_INTEGER
  }

  lemma ListedBounds(root: Root, max: Option<int>, w: Version)
    requires w in AllVersions(root) && (max.None? ==> SafeMajors(root))
    ensures |w| == 3 && (Trie.InBound(w, max) <==> w[0] <= Limit(max))
  {
    var i, j, k := ListedAt(root, w);
  }

  // The two implementations of "highest version" agree: the model's query and a VersionContainer
  // built from allVersions(). Without a bound the query stops at MAX_SAFE_INTEGER.
  lemma HighestVersionsAgree(root: Root, max: Option<int>)
    requires WellFormed(root) && (max.None? ==> SafeMajors(root))
    ensures HighestVersion(root, max) == Trie.GetHighestVersion(Trie.Container(AllVersions(root)), max)
  {
    var all := AllVersions(root);
    var h, g := HighestVersion(root, max), Trie.GetHighestVersion(Trie.Container(all), max);
    Trie.GetHighestIsPreferred(all, max, [0, 0]);
    HighestVersionIsMaximum(root, max, [0, 0]);
    if g.Some? {
      ListedBounds(root, max, g.value);
      HighestVersionIsMaximum(root, max, g.value);
    }
    if h.Some? {
      ListedBounds(root, max, h.value);
      ContainerAnswers(root, max, h.value);
      CompareIsTotalOrder(h.value, g.value, g.value);
      CompareIsTotalOrder(g.value, h.value, h.value);
    }
  }

  lemma ContainerAnswers(root: Root, max: Option<int>, w: Version)
    requires w in AllVersions(root) && Trie.InBound(w, max) && (max.None? ==> SafeMajors(root))
    ensures var g := Trie.GetHighestVersion(Trie.Container(AllVersions(root)), max);
            g.Some? && g.value in AllVersions(root) && Trie.InBound(g.value, max) && Difference(g.value, w) >= 0
  {
    forall v: Version | v in AllVersions(root) ensures |v| == 3 { ListedBounds(root, max, v); }
    Trie.HighestOfEqualLength(AllVersions(root), max, 3, w);
  }

  // ---------------------------------------------------------------- nextVersion

  // The next release from a container exceeds all versions of its major.
  lemma NextReleaseExceeds(root: Root, i: nat, t: VersionType, w: Version)
    requires WellFormed(root) && i < |Tops(root)| && w in AllVersions(root)
    ensures var next := NextRelease(Tops(root)[i], t);
            && next[0] == Tops(root)[i].major
            && (w[0] == next[0] ==> Less(w, next))
            && (w[0] < next[0] ==> Less(w, next))
            && (w[0] > next[0] ==> Less(next, w))
  {
    var x, j, k := ListedAt(root, w);
    var next := NextRelease(Tops(root)[i], t);
    ThreeLess(w, next);
    ThreeLess(next, w);
    if w[0] == next[0] {
      assert x == i;
      FirstIsHighest(root, w, x, j, k);
    }
  }

  // A release from the main branch exceeds every version in the repository; one from a patch
  // branch exceeds every version of its own and earlier majors and stays below all later ones.
  lemma NextVersionFits(root: Root, branch: BranchRef, t: VersionType, w: Version)
    requires WellFormed(root) && NextVersion(root, branch, t).Some? && w in AllVersions(root)
    ensures var next := NextVersion(root, branch, t).value;
            && (branch.MainRef? ==> Less(w, next))
            && |next| == 3 && (branch.PatchRef? ==> next[0] == branch.segments[0] < root.main.major)
            && (w[0] <= next[0] ==> Less(w, next))
            && (w[0] > next[0] ==> Less(next, w))
  {
    var i := if branch.MainRef? then 0 else 1 + MajorIndex(root.majors, branch.segments[0]);
    NextReleaseExceeds(root, i, t, w);
    assert Tops(root)[0] == root.main;
    if branch.PatchRef? { assert Tops(root)[i] == root.majors[i - 1]; }
    var x, j, k := ListedAt(root, w);
  }

  // ---------------------------------------------------------------- reading and writing majors

  // In every model the sha to read from, the sha of the write branch and, for a major without
  // a branch of its own, the start of the next major are the same.
  lemma ShasAgree(root: Root, m: nat)
    ensures ReadSha(root, m)
         == if ResolveWriteBranch(root, m).Some? then Some(ResolveWriteBranch(root, m).value.sha) else None
    ensures root.main.major != m && FindMajor(root, m).Some? && FindMajor(root, m).value.branch.None? ==>
              FindNextMajor(root, m).Some? && ReadSha(root, m) == FindNextMajor(root, m).value.start
    ensures FindNextMajor(root, m).Some? ==> root.main.major != m && FindMajor(root, m).Some?
  {
    var cs := Tops(root);
    assert cs[0] == root.main;
    assert forall i | 0 <= i < |root.majors| :: cs[i + 1] == root.majors[i];
    if root.main.major != m {
      var i := MajorIndex(root.majors, m);
      assert MajorIndex(cs, m) == i + 1;
    }
  }
}
