// The repository model: flat tags and branches become a sorted tree of majors, minors and
// releases (RawDataToModelConverter.convertModel).
module ReleaseModel {
  import opened Options

  // Commit ids; only their identity matters.
  type Sha = int

  datatype NumbersSha = NumbersSha(numbers: seq<nat>, sha: Sha)
  datatype NumberSha = NumberSha(number: nat, sha: Sha)

  // Branch and tag names match patch-N(.N)*, vN.N.N and major-N, so numbers are never empty.
  datatype Raw = Raw(mainSha: Sha, releaseTags: seq<NumbersSha>,
                     patchBranches: seq<NumbersSha>, majorTags: seq<NumberSha>)

  predicate Proper(raw: Raw) {
    && (forall i | 0 <= i < |raw.releaseTags| :: raw.releaseTags[i].numbers != [])
    && (forall i | 0 <= i < |raw.patchBranches| :: raw.patchBranches[i].numbers != [])
  }

  datatype Release = Release(patch: nat, sha: Sha)
  datatype Minor = Minor(minor: nat, releases: seq<Release>, branch: Option<Sha>)
  datatype Container = Container(major: nat, minors: seq<Minor>, start: Option<Sha>, branch: Option<Sha>)
  datatype Root = Root(main: Container, mainSha: Sha, majors: seq<Container>)

  // ---------------------------------------------------------------- builders

  datatype MinorBuilder = MinorBuilder(branch: Option<Sha>, releases: map<nat, Sha>)
  datatype Builder = Builder(branch: Option<Sha>, start: Option<Sha>, minors: map<nat, MinorBuilder>)

  type Builders = map<nat, Builder>

  function GetOrCreate(b: Builders, major: nat): Builder { if major in b then b[major] else Builder(None, None, map[]) }

  function GetMinor(b: Builder, minor: nat): MinorBuilder {
    if minor in b.minors then b.minors[minor] else MinorBuilder(None, map[])
  }

  function PutMajorTag(b: Builders, t: NumberSha): Builders {
    b[t.number := GetOrCreate(b, t.number).(start := Some(t.sha))]
  }

  // The condition `numbers.length = 1` assigns: it cuts the numbers to one and always holds.
  function PutPatchBranch(b: Builders, t: NumbersSha): Builders
    requires t.numbers != []
  {
    b[t.numbers[0] := GetOrCreate(b, t.numbers[0]).(branch := Some(t.sha))]
  }

  function PutRelease(b: Builders, t: NumbersSha): Builders
    requires t.numbers != []
  {
    var was := GetOrCreate(b, t.numbers[0]);
    b[t.numbers[0] :=
      if |t.numbers| == 3 then
        var m := GetMinor(was, t.numbers[1]);
        was.(minors := was.minors[t.numbers[1] := m.(releases := m.releases[t.numbers[2] := t.sha])])
      else was]
  }

  function PutMajorTags(b: Builders, ts: seq<NumberSha>): Builders {
    if ts == [] then b else PutMajorTag(PutMajorTags(b, ts[..|ts| - 1]), ts[|ts| - 1])
  }

  function PutPatchBranches(b: Builders, ts: seq<NumbersSha>): Builders
    requires forall i | 0 <= i < |ts| :: ts[i].numbers != []
  {
    if ts == [] then b else PutPatchBranch(PutPatchBranches(b, ts[..|ts| - 1]), ts[|ts| - 1])
  }

  function PutReleases(b: Builders, ts: seq<NumbersSha>): Builders
    requires forall i | 0 <= i < |ts| :: ts[i].numbers != []
  {
    if ts == [] then b else PutRelease(PutReleases(b, ts[..|ts| - 1]), ts[|ts| - 1])
  }

  function Collect(raw: Raw): Builders
    requires Proper(raw)
  {
    PutReleases(PutPatchBranches(PutMajorTags(map[], raw.majorTags), raw.patchBranches), raw.releaseTags)
  }

  // ---------------------------------------------------------------- building

  predicate IsTop(s: set<nat>, m: nat) { m in s && forall x | x in s :: x <= m }

  lemma {:induction false} TopExists(s: set<nat>)
    requires s != {}
    ensures exists m :: IsTop(s, m)
  {
    var a :| a in s;
    var rest := s - {a};
    assert s == rest + {a};
    if rest == {} {
      assert IsTop(s, a);
    } else {
      TopExists(rest);
      var m :| IsTop(rest, m);
      assert IsTop(s, if a > m then a else m);
    }
  }

  function Top(s: set<nat>): (m: nat)
    requires s != {}
    ensures IsTop(s, m)
  {
    TopExists(s);
    var m :| IsTop(s, m);
    m
  }

  // The members of a set, highest first (_.sortBy on the negated key).
  function Descending(s: set<nat>): (d: seq<nat>)
    ensures forall x :: x in d <==> x in s
    ensures forall i, j | 0 <= i < j < |d| :: d[i] > d[j]
    decreases |s|
  {
    if s == {} then []
    else
      var m := Top(s);
      var rest := Descending(s - {m});
      assert forall i | 0 <= i < |rest| :: rest[i] in s - {m};
      [m] + rest
  }

  function BuildMinor(minor: nat, b: MinorBuilder): Minor {
    var d := Descending(b.releases.Keys);
    Minor(minor, seq(|d|, i requires 0 <= i < |d| => assert d[i] in d; Release(d[i], b.releases[d[i]])), b.branch)
  }

  function BuildContainer(major: nat, b: Builder, branch: Option<Sha>): Container {
    var d := Descending(b.minors.Keys);
    Container(major, seq(|d|, i requires 0 <= i < |d| => assert d[i] in d; BuildMinor(d[i], b.minors[d[i]])),
              b.start, branch)
  }

  function BuildRoot(b: Builders, mainSha: Sha): Root {
    if b.Keys == {} then Root(Container(0, [], None, None), mainSha, [])
    else
      var top := Top(b.Keys);
      var d := Descending(b.Keys - {top});
      Root(BuildContainer(top, b[top], None), mainSha,
           seq(|d|, i requires 0 <= i < |d| => assert d[i] in d; BuildContainer(d[i], b[d[i]], b[d[i]].branch)))
  }

  function Convert(raw: Raw): Root
    requires Proper(raw)
  {
    BuildRoot(Collect(raw), raw.mainSha)
  }

  method ConvertModel(raw: Raw) returns (root: Root)
    requires Proper(raw)
    ensures root == Convert(raw)
  {
    var builders: Builders := map[];
    for i := 0 to |raw.majorTags|
      invariant builders == PutMajorTags(map[], raw.majorTags[..i])
    {
      assert raw.majorTags[..i + 1][..i] == raw.majorTags[..i];
      builders := PutMajorTag(builders, raw.majorTags[i]);
    }
    assert raw.majorTags[..|raw.majorTags|] == raw.majorTags;
    ghost var started := builders;
    for i := 0 to |raw.patchBranches|
      invariant builders == PutPatchBranches(started, raw.patchBranches[..i])
    {
      assert raw.patchBranches[..i + 1][..i] == raw.patchBranches[..i];
      builders := PutPatchBranch(builders, raw.patchBranches[i]);
    }
    assert raw.patchBranches[..|raw.patchBranches|] == raw.patchBranches;
    ghost var branched := builders;
    for i := 0 to |raw.releaseTags|
      invariant builders == PutReleases(branched, raw.releaseTags[..i])
    {
      assert raw.releaseTags[..i + 1][..i] == raw.releaseTags[..i];
      builders := PutRelease(builders, raw.releaseTags[i]);
    }
    assert raw.releaseTags[..|raw.releaseTags|] == raw.releaseTags;
    root := BuildRoot(builders, raw.mainSha);
  }

  // ---------------------------------------------------------------- what the builders hold

  // The last entry of a list for a key wins.
  function LastStart(ts: seq<NumberSha>, m: nat): Option<Sha> {
    if ts == [] then None
    else if ts[|ts| - 1].number == m then Some(ts[|ts| - 1].sha)
    else LastStart(ts[..|ts| - 1], m)
  }

  function LastBranch(ts: seq<NumbersSha>, m: nat): Option<Sha> {
    if ts == [] then None
    else if ts[|ts| - 1].numbers != [] && ts[|ts| - 1].numbers[0] == m then Some(ts[|ts| - 1].sha)
    else LastBranch(ts[..|ts| - 1], m)
  }

  function LastRelease(ts: seq<NumbersSha>, v: seq<nat>): Option<Sha> {
    if ts == [] then None
    else if ts[|ts| - 1].numbers == v then Some(ts[|ts| - 1].sha)
    else LastRelease(ts[..|ts| - 1], v)
  }

  // The majors any ref mentions.
  ghost predicate Mentions(raw: Raw, m: nat) {
    LastStart(raw.majorTags, m).Some? || LastBranch(raw.patchBranches, m).Some? || LastBranch(raw.releaseTags, m).Some?
  }

  function Lookup(b: Builders, v: seq<nat>): Option<Sha>
    requires |v| == 3
  {
    if v[0] in b && v[1] in b[v[0]].minors && v[2] in b[v[0]].minors[v[1]].releases
    then Some(b[v[0]].minors[v[1]].releases[v[2]]) else None
  }

  // Minors exist only because of releases, and no minor ever gets a branch.
  ghost predicate Plain(b: Builders) {
    forall a, n | a in b && n in b[a].minors :: b[a].minors[n].releases != map[] && b[a].minors[n].branch.None?
  }

  lemma {:induction false} MajorTagsMean(ts: seq<NumberSha>, m: nat)
    ensures var b := PutMajorTags(map[], ts);
            && (m in b <==> LastStart(ts, m).Some?)
            && (m in b ==> b[m] == Builder(None, LastStart(ts, m), map[]))
  {
    if ts != [] { MajorTagsMean(ts[..|ts| - 1], m); }
  }

  lemma {:induction false} PatchBranchesMean(b: Builders, ts: seq<NumbersSha>, m: nat)
    requires forall i | 0 <= i < |ts| :: ts[i].numbers != []
    requires m in b ==> b[m].branch.None?
    ensures var c := PutPatchBranches(b, ts);
            && (m in c <==> m in b || LastBranch(ts, m).Some?)
            && (m in c ==> c[m] == GetOrCreate(b, m).(branch := LastBranch(ts, m)))
  {
    if ts != [] { PatchBranchesMean(b, ts[..|ts| - 1], m); }
  }

  lemma {:induction false} ReleasesMean(b: Builders, ts: seq<NumbersSha>, m: nat)
    requires forall i | 0 <= i < |ts| :: ts[i].numbers != []
    ensures var c := PutReleases(b, ts);
            && (m in c <==> m in b || LastBranch(ts, m).Some?)
            && (m in c ==> c[m].branch == GetOrCreate(b, m).branch && c[m].start == GetOrCreate(b, m).start)
  {
    if ts != [] { ReleasesMean(b, ts[..|ts| - 1], m); }
  }

  lemma {:induction false} ReleasesLookup(b: Builders, ts: seq<NumbersSha>, v: seq<nat>)
    requires (forall i | 0 <= i < |ts| :: ts[i].numbers != []) && |v| == 3
    requires Plain(b)
    ensures Plain(PutReleases(b, ts))
    ensures Lookup(PutReleases(b, ts), v) == if LastRelease(ts, v).Some? then LastRelease(ts, v) else Lookup(b, v)
  {
    if ts != [] {
      var front, last := ts[..|ts| - 1], ts[|ts| - 1];
      ReleasesLookup(b, front, v);
      ReleaseLookup(PutReleases(b, front), last, v);
    }
  }

  lemma ReleaseLookup(b: Builders, t: NumbersSha, v: seq<nat>)
    requires t.numbers != [] && |v| == 3 && Plain(b)
    ensures Plain(PutRelease(b, t))
    ensures Lookup(PutRelease(b, t), v) == if t.numbers == v then Some(t.sha) else Lookup(b, v)
  {
    var c := PutRelease(b, t);
    forall a, n | a in c && n in c[a].minors ensures c[a].minors[n].releases != map[] && c[a].minors[n].branch.None? {
      if |t.numbers| == 3 && a == t.numbers[0] && n == t.numbers[1] {
        assert t.numbers[2] in c[a].minors[n].releases;
      } else {
        assert a in b && n in b[a].minors;
      }
    }
    assert t.numbers == v <==> |t.numbers| == 3 && t.numbers[0] == v[0] && t.numbers[1] == v[1] && t.numbers[2] == v[2];
  }

  // Every builder, read off the raw data.
  lemma CollectMeans(raw: Raw, m: nat)
    requires Proper(raw)
    ensures m in Collect(raw) <==> Mentions(raw, m)
    ensures m in Collect(raw) ==> Collect(raw)[m].start == LastStart(raw.majorTags, m)
    ensures m in Collect(raw) ==> Collect(raw)[m].branch == LastBranch(raw.patchBranches, m)
  {
    var b := PutMajorTags(map[], raw.majorTags);
    MajorTagsMean(raw.majorTags, m);
    PatchBranchesMean(b, raw.patchBranches, m);
    ReleasesMean(PutPatchBranches(b, raw.patchBranches), raw.releaseTags, m);
  }

  lemma CollectLookup(raw: Raw, v: seq<nat>)
    requires Proper(raw) && |v| == 3
    ensures Plain(Collect(raw)) && Lookup(Collect(raw), v) == LastRelease(raw.releaseTags, v)
  {
    var b := PutMajorTags(map[], raw.majorTags);
    var c := PutPatchBranches(b, raw.patchBranches);
    forall a | a in c ensures c[a].minors == map[] {
      MajorTagsMean(raw.majorTags, a);
      PatchBranchesMean(b, raw.patchBranches, a);
    }
    ReleasesLookup(c, raw.releaseTags, v);
  }
}
