// Runs of the steps that change a repository's refs. The model is rebuilt before every step.
module ReleaseRuns {
  import opened Options
  import opened Lexicographic
  import opened ReleaseModel
  import opened ModelReader

  datatype Step =
    | DoRelease(branch: BranchRef, kind: VersionType, sha: Sha)   // BuildSystemImpl.release
    | OpenMajor(value: nat)                                       // a new major tag on main
    | CreatePatchBranch(major: nat)                               // a branch for an earlier major
    | MoveMain(sha: Sha)                                          // pushes
    | MovePatch(index: nat, sha: Sha)

  function Do(raw: Raw, step: Step): Raw
    requires Proper(raw)
  {
    var root := Convert(raw);
    match step
    case DoRelease(branch, kind, sha) =>
      (match NextVersion(root, branch, kind)
       case None => raw
       case Some(v) => raw.(releaseTags := raw.releaseTags + [NumbersSha(v, sha)]))
    case OpenMajor(value) =>
      if value > root.main.major then raw.(majorTags := raw.majorTags + [NumberSha(value, raw.mainSha)]) else raw
    case CreatePatchBranch(m) =>
      var next := FindNextMajor(root, m);
      if next.Some? && next.value.start.Some? && !HasPatchBranch(raw, m)
      then raw.(patchBranches := raw.patchBranches + [NumbersSha([m], next.value.start.value)]) else raw
    case MoveMain(sha) => raw.(mainSha := sha)
    case MovePatch(i, sha) =>
      if i < |raw.patchBranches|
      then raw.(patchBranches := raw.patchBranches[i := raw.patchBranches[i].(sha := sha)]) else raw
  }

  // The branch patch-<m> exists.
  predicate HasPatchBranch(raw: Raw, m: nat) { exists b | b in raw.patchBranches :: b.numbers == [m] }

  lemma StepIsProper(raw: Raw, step: Step)
    requires Proper(raw)
    ensures Proper(Do(raw, step))
  {
    if step.DoRelease? {
      var v := NextVersion(Convert(raw), step.branch, step.kind);
      if v.Some? { assert v.value != []; }
    }
  }

  function After(raw: Raw, run: seq<Step>): (r: Raw)
    requires Proper(raw)
    ensures Proper(r)
  {
    if run == [] then raw
    else
      var before := After(raw, run[..|run| - 1]);
      StepIsProper(before, run[|run| - 1]);
      Do(before, run[|run| - 1])
  }

  // ---------------------------------------------------------------- versions issued

  predicate Tagged(raw: Raw, v: seq<nat>) { LastRelease(raw.releaseTags, v).Some? }

  function IssuedBy(raw: Raw, step: Step): seq<seq<nat>>
    requires Proper(raw)
  {
    if step.DoRelease? && NextVersion(Convert(raw), step.branch, step.kind).Some?
    then [NextVersion(Convert(raw), step.branch, step.kind).value] else []
  }

  function Issued(raw: Raw, run: seq<Step>): seq<seq<nat>>
    requires Proper(raw)
  {
    if run == [] then [] else Issued(raw, run[..|run| - 1]) + IssuedBy(After(raw, run[..|run| - 1]), run[|run| - 1])
  }

  lemma TaggedIffListed(raw: Raw, v: seq<nat>)
    requires Proper(raw) && |v| == 3
    ensures Tagged(raw, v) <==> v in AllVersions(Convert(raw))
  {
    ConvertIsSorted(raw);
    VersionShaIsLastTag(raw, v);
    ListedIffKnown(Convert(raw), v);
  }

  // What a release is worth when it is issued, in any state: from main it exceeds every tagged
  // version; from a patch branch it exceeds those of its own and earlier majors and stays
  // below those of every later major. So it has not been tagged before.
  lemma ReleaseFits(raw: Raw, branch: BranchRef, kind: VersionType, w: seq<nat>)
    requires Proper(raw) && NextVersion(Convert(raw), branch, kind).Some? && Tagged(raw, w) && |w| == 3
    ensures var next := NextVersion(Convert(raw), branch, kind).value;
            && |next| == 3 && next != w
            && (branch.MainRef? ==> Less(w, next))
            && (w[0] <= next[0] ==> Less(w, next)) && (w[0] > next[0] ==> Less(next, w))
  {
    TaggedIffListed(raw, w);
    ConvertIsSorted(raw);
    NextVersionFits(Convert(raw), branch, kind, w);
    Irreflexive(w);
  }

  lemma NextHasThree(root: Root, branch: BranchRef, kind: VersionType)
    ensures NextVersion(root, branch, kind).Some? ==> |NextVersion(root, branch, kind).value| == 3
  {
  }

  lemma TagsStay(raw: Raw, step: Step, v: seq<nat>)
    requires Proper(raw)
    ensures Tagged(Do(raw, step), v) <==> Tagged(raw, v) || v in IssuedBy(raw, step)
  {
    var r := Do(raw, step);
    if IssuedBy(raw, step) != [] { assert r.releaseTags[..|raw.releaseTags|] == raw.releaseTags; }
  }

  // Over any run no version is issued twice, none was tagged before the run, and the tags at
  // the end are the old ones and the issued ones.
  lemma {:induction false} NoVersionTwice(raw: Raw, run: seq<Step>)
    requires Proper(raw)
    ensures var vs := Issued(raw, run);
            && (forall i, j | 0 <= i < j < |vs| :: vs[i] != vs[j])
            && (forall v :: v in vs ==> |v| == 3 && !Tagged(raw, v))
            && (forall v: seq<nat> :: Tagged(After(raw, run), v) <==> Tagged(raw, v) || v in vs)
  {
    if run != [] {
      var front, step := run[..|run| - 1], run[|run| - 1];
      NoVersionTwice(raw, front);
      var mid, vs := After(raw, front), Issued(raw, front);
      var added := IssuedBy(mid, step);
      forall v: seq<nat> ensures Tagged(After(raw, run), v) <==> Tagged(raw, v) || v in Issued(raw, run) {
        TagsStay(mid, step, v);
      }
      if added != [] {
        var next := added[0];
        NextHasThree(Convert(mid), step.branch, step.kind);
        if Tagged(mid, next) { ReleaseFits(mid, step.branch, step.kind, next); }
        assert Issued(raw, run) == vs + [next];
        assert next !in vs;
      } else {
        assert Issued(raw, run) == vs;
      }
    }
  }

  // ---------------------------------------------------------------- a stale model

  // The major has a tagged version.
  ghost predicate HasVersion(raw: Raw, m: nat) { exists w: seq<nat> :: |w| == 3 && w[0] == m && Tagged(raw, w) }

  // What the next version comes from: nothing, or a tagged version it is the successor of.
  ghost predicate Follows(raw: Raw, base: seq<nat>, kind: VersionType, next: seq<nat>) {
    |base| == 3 && Tagged(raw, base) && next == Successor(base, kind)
  }

  function Successor(base: seq<nat>, kind: VersionType): seq<nat>
    requires |base| == 3
  {
    if kind.MinorRelease? then [base[0], base[1] + 1, 0] else [base[0], base[1], base[2] + 1]
  }

  // The container a next version is for.
  lemma ReleasedContainer(root: Root, branch: BranchRef, kind: VersionType) returns (i: nat)
    requires NextVersion(root, branch, kind).Some?
    ensures i < |Tops(root)| && NextVersion(root, branch, kind).value == NextRelease(Tops(root)[i], kind)
  {
    i := if branch.MainRef? then 0 else 1 + MajorIndex(root.majors, branch.segments[0]);
    assert Tops(root)[i] == if branch.MainRef? then root.main else root.majors[i - 1];
  }

  // A container has minors exactly when its major has a listed version; its first release is listed.
  lemma FirstRelease(root: Root, i: nat) returns (base: seq<nat>)
    requires WellFormed(root) && i < |Tops(root)|
    ensures |base| == 3 && base[0] == Tops(root)[i].major
    ensures var c := Tops(root)[i];
            && (c.minors != [] ==> c.minors[0].releases != [])
            && (c.minors != [] ==> base == [c.major, c.minors[0].minor, c.minors[0].releases[0].patch])
            && (c.minors != [] ==> base in AllVersions(root))
  {
    var c := Tops(root)[i];
    base := [c.major, 0, 0];
    assert SortedMinors(c.minors);
    if c.minors != [] {
      assert SortedReleases(c.minors[0].releases);
      base := [c.major, c.minors[0].minor, c.minors[0].releases[0].patch];
      AtListed(root, base, i, 0, 0);
    }
  }

  lemma ListedHasMinors(root: Root, i: nat, w: seq<nat>)
    requires WellFormed(root) && i < |Tops(root)| && |w| == 3 && w in AllVersions(root) && w[0] == Tops(root)[i].major
    ensures Tops(root)[i].minors != []
  {
    var x, j, k := ListedAt(root, w);
    assert x == i;
  }

  lemma NextOfRoot(root: Root, branch: BranchRef, kind: VersionType) returns (listed: bool, base: seq<nat>)
    requires WellFormed(root) && NextVersion(root, branch, kind).Some?
    ensures var next := NextVersion(root, branch, kind).value;
            && |base| == |next| == 3
            && (if listed then base in AllVersions(root) && next == Successor(base, kind)
                else next == [next[0], 0, 0]
                     && forall w: seq<nat> | |w| == 3 && w[0] == next[0] :: w !in AllVersions(root))
  {
    var i := ReleasedContainer(root, branch, kind);
    base := FirstRelease(root, i);
    listed := Tops(root)[i].minors != [];
    forall w: seq<nat> | |w| == 3 && w[0] == Tops(root)[i].major && w in AllVersions(root) ensures listed {
      ListedHasMinors(root, i, w);
    }
  }

  lemma NextFollows(raw: Raw, branch: BranchRef, kind: VersionType) returns (base: seq<nat>)
    requires Proper(raw) && NextVersion(Convert(raw), branch, kind).Some?
    ensures var next := NextVersion(Convert(raw), branch, kind).value;
            if HasVersion(raw, next[0]) then Follows(raw, base, kind, next) else next == [next[0], 0, 0]
  {
    ConvertIsSorted(raw);
    var listed: bool;
    listed, base := NextOfRoot(Convert(raw), branch, kind);
    var m := NextVersion(Convert(raw), branch, kind).value[0];
    if listed { TaggedIffListed(raw, base); }
    forall w: seq<nat> | |w| == 3 && w[0] == m && Tagged(raw, w) ensures listed { TaggedIffListed(raw, w); }
  }

  predicate Issues(raw: Raw, step: Step, m: nat)
    requires Proper(raw)
  {
    step.DoRelease? && NextVersion(Convert(raw), step.branch, step.kind).Some?
    && NextVersion(Convert(raw), step.branch, step.kind).value[0] == m
  }

  // No step of the run is a release of the major, patch releases aside if `patches` says so.
  predicate Clear(raw: Raw, run: seq<Step>, m: nat, patches: bool)
    requires Proper(raw)
  {
    run == []
    || (&& Clear(raw, run[..|run| - 1], m, patches)
        && (Issues(After(raw, run[..|run| - 1]), run[|run| - 1], m) ==> patches && run[|run| - 1].kind.PatchRelease?))
  }

  // A version is above all tagged ones of its major.
  ghost predicate OnTop(raw: Raw, v: seq<nat>)
    requires |v| == 3
  {
    forall w: seq<nat> | |w| == 3 && w[0] == v[0] && Tagged(raw, w) :: Less(w, v)
  }

  // A tagged version stays tagged.
  lemma TaggedStays(raw: Raw, run: seq<Step>, w: seq<nat>)
    requires Proper(raw) && Tagged(raw, w)
    ensures Tagged(After(raw, run), w)
  {
    NoVersionTwice(raw, run);
  }

  // A patch release stays below a minor version that was above all versions of the major.
  lemma PatchStaysBelow(raw: Raw, branch: BranchRef, v: seq<nat>)
    requires Proper(raw) && NextVersion(Convert(raw), branch, PatchRelease).Some?
    requires |v| == 3 && v[2] == 0 && OnTop(raw, v) && HasVersion(raw, v[0])
    requires NextVersion(Convert(raw), branch, PatchRelease).value[0] == v[0]
    ensures Less(NextVersion(Convert(raw), branch, PatchRelease).value, v)
  {
    var w := NextVersion(Convert(raw), branch, PatchRelease).value;
    var base := NextFollows(raw, branch, PatchRelease);
    assert Less(base, v);
    ThreeLess(base, v);
    ThreeLess(w, v);
  }

  // A release of a major that has version `base` is at least its next patch, and a minor release
  // at least its next minor.
  lemma NotBelow(raw: Raw, branch: BranchRef, kind: VersionType, base: seq<nat>)
    requires Proper(raw) && NextVersion(Convert(raw), branch, kind).Some?
    requires |base| == 3 && Tagged(raw, base) && NextVersion(Convert(raw), branch, kind).value[0] == base[0]
    ensures var w := NextVersion(Convert(raw), branch, kind).value;
            && !Less(w, [base[0], base[1], base[2] + 1])
            && (kind.MinorRelease? ==> !Less(w, [base[0], base[1] + 1, 0]))
  {
    ReleaseFits(raw, branch, kind, base);
    var w := NextVersion(Convert(raw), branch, kind).value;
    var was := NextFollows(raw, branch, kind);
    ThreeLess(base, w);
    ThreeLess(w, [base[0], base[1], base[2] + 1]);
    ThreeLess(w, [base[0], base[1] + 1, 0]);
    assert HasVersion(raw, w[0]);
  }

  // A version computed on a model that is some steps old is still above all versions of its major
  // exactly when none of those steps was a release of that major or, for a minor release of a
  // major that had versions, they were all patch releases.
  lemma StaleReleaseIff(raw: Raw, branch: BranchRef, kind: VersionType, run: seq<Step>)
    requires Proper(raw) && NextVersion(Convert(raw), branch, kind).Some?
    ensures var v := NextVersion(Convert(raw), branch, kind).value;
            && |v| == 3
            && (OnTop(After(raw, run), v)
                <==> Clear(raw, run, v[0], kind.MinorRelease? && HasVersion(raw, v[0])))
  {
    NextHasThree(Convert(raw), branch, kind);
    var v := NextVersion(Convert(raw), branch, kind).value;
    forall w: seq<nat> | |w| == 3 && w[0] == v[0] && Tagged(raw, w) ensures Less(w, v) {
      ReleaseFits(raw, branch, kind, w);
    }
    var base := NextFollows(raw, branch, kind);
    if Clear(raw, run, v[0], kind.MinorRelease? && HasVersion(raw, v[0])) {
      StaysOnTop(raw, run, v, kind.MinorRelease? && HasVersion(raw, v[0]));
    } else {
      FallsBehind(raw, run, v, kind, base);
    }
  }

  lemma {:induction false} StaysOnTop(raw: Raw, run: seq<Step>, v: seq<nat>, patches: bool)
    requires Proper(raw) && |v| == 3 && OnTop(raw, v) && Clear(raw, run, v[0], patches)
    requires patches ==> v[2] == 0 && HasVersion(raw, v[0])
    ensures OnTop(After(raw, run), v)
  {
    if run != [] {
      var front, step := run[..|run| - 1], run[|run| - 1];
      StaysOnTop(raw, front, v, patches);
      var mid := After(raw, front);
      if Issues(mid, step, v[0]) {
        var u: seq<nat> :| |u| == 3 && u[0] == v[0] && Tagged(raw, u);
        TaggedStays(raw, front, u);
        assert HasVersion(mid, v[0]);
        PatchStaysBelow(mid, step.branch, v);
      }
      forall w: seq<nat> | |w| == 3 && w[0] == v[0] && Tagged(After(raw, run), w) ensures Less(w, v) {
        TagsStay(mid, step, w);
      }
    }
  }

  // A release that was not to come in between is not below the stale version.
  lemma OvertakenBy(raw: Raw, front: seq<Step>, step: Step, v: seq<nat>, kind: VersionType, base: seq<nat>)
    requires Proper(raw) && |v| == 3 && Issues(After(raw, front), step, v[0])
    requires if HasVersion(raw, v[0]) then Follows(raw, base, kind, v) else v == [v[0], 0, 0]
    requires !(kind.MinorRelease? && HasVersion(raw, v[0]) && step.kind.PatchRelease?)
    ensures var w := NextVersion(Convert(After(raw, front)), step.branch, step.kind).value;
            |w| == 3 && !Less(w, v)
  {
    var mid := After(raw, front);
    NextHasThree(Convert(mid), step.branch, step.kind);
    if HasVersion(raw, v[0]) {
      TaggedStays(raw, front, base);
      NotBelow(mid, step.branch, step.kind, base);
    } else {
      ThreeLess(NextVersion(Convert(mid), step.branch, step.kind).value, v);
    }
  }

  lemma {:induction false} FallsBehind(raw: Raw, run: seq<Step>, v: seq<nat>, kind: VersionType, base: seq<nat>)
    requires Proper(raw) && |v| == 3
    requires if HasVersion(raw, v[0]) then Follows(raw, base, kind, v) else v == [v[0], 0, 0]
    requires !Clear(raw, run, v[0], kind.MinorRelease? && HasVersion(raw, v[0]))
    ensures !OnTop(After(raw, run), v)
  {
    var front, step := run[..|run| - 1], run[|run| - 1];
    var mid := After(raw, front);
    var w: seq<nat>;
    if Clear(raw, front, v[0], kind.MinorRelease? && HasVersion(raw, v[0])) {
      OvertakenBy(raw, front, step, v, kind, base);
      w := NextVersion(Convert(mid), step.branch, step.kind).value;
    } else {
      FallsBehind(raw, front, v, kind, base);
      w :| |w| == 3 && w[0] == v[0] && Tagged(mid, w) && !Less(w, v);
    }
    TagsStay(mid, step, w);
  }

  // No step of the run is a release of a later major.
  predicate NoLaterMajor(raw: Raw, run: seq<Step>, m: nat)
    requires Proper(raw)
  {
    run == []
    || (&& NoLaterMajor(raw, run[..|run| - 1], m)
        && forall v | v in IssuedBy(After(raw, run[..|run| - 1]), run[|run| - 1]) :: |v| == 3 ==> v[0] <= m)
  }

  lemma {:induction false} LaterMajors(raw: Raw, run: seq<Step>, m: nat)
    requires Proper(raw) && forall w: seq<nat> | |w| == 3 && Tagged(raw, w) :: w[0] <= m
    ensures NoLaterMajor(raw, run, m) <==> forall w: seq<nat> | |w| == 3 && Tagged(After(raw, run), w) :: w[0] <= m
  {
    if run != [] {
      var front, step := run[..|run| - 1], run[|run| - 1];
      LaterMajors(raw, front, m);
      forall w: seq<nat> ensures Tagged(After(raw, run), w) <==>
          Tagged(After(raw, front), w) || w in IssuedBy(After(raw, front), step) {
        TagsStay(After(raw, front), step, w);
      }
    }
  }

  // And one computed for main still exceeds every version in the repository exactly when, besides,
  // none of the steps was a release of a later major.
  lemma StaleMainReleaseIff(raw: Raw, kind: VersionType, run: seq<Step>)
    requires Proper(raw)
    ensures var v := NextVersion(Convert(raw), MainRef, kind).value;
            && |v| == 3
            && ((forall w: seq<nat> | |w| == 3 && Tagged(After(raw, run), w) :: Less(w, v))
                <==> Clear(raw, run, v[0], kind.MinorRelease? && HasVersion(raw, v[0])) && NoLaterMajor(raw, run, v[0]))
  {
    var v := NextVersion(Convert(raw), MainRef, kind).value;
    StaleReleaseIff(raw, MainRef, kind, run);
    forall w: seq<nat> | |w| == 3 && Tagged(raw, w) ensures w[0] <= v[0] {
      ReleaseFits(raw, MainRef, kind, w);
      ThreeLess(w, v);
    }
    LaterMajors(raw, run, v[0]);
    forall w: seq<nat> | |w| == 3 ensures w[0] < v[0] ==> Less(w, v)
                                  ensures w[0] > v[0] ==> !Less(w, v) { ThreeLess(w, v); }
  }

  // Two minor releases computed on the same model get the same version.
  lemma StaleReleasesCollide(raw: Raw, sha: Sha, other: Sha)
    requires Proper(raw)
    ensures var v := NextVersion(Convert(raw), MainRef, MinorRelease).value;
            Tagged(Do(raw, DoRelease(MainRef, MinorRelease, sha)), v)
  {
    TagsStay(raw, DoRelease(MainRef, MinorRelease, sha), NextVersion(Convert(raw), MainRef, MinorRelease).value);
  }

  // ---------------------------------------------------------------- the previous major

  // Major `m` has no branch of its own and the next major is `v`, opened at commit `s`.
  ghost predicate Anchored(raw: Raw, m: nat, v: nat, s: Sha) {
    && m < v && Mentions(raw, m) && LastBranch(raw.patchBranches, m).None?
    && LastStart(raw.majorTags, v) == Some(s)
    && forall x | m < x < v :: !Mentions(raw, x)
  }

  // Where the containers of a converted model come from.
  lemma ContainerMeans(raw: Raw, i: nat)
    requires Proper(raw) && Collect(raw).Keys != {} && i < |Tops(Convert(raw))|
    ensures var c := Tops(Convert(raw))[i];
            && Mentions(raw, c.major) && c.start == LastStart(raw.majorTags, c.major)
            && (i > 0 ==> c.branch == LastBranch(raw.patchBranches, c.major))
  {
    BuiltMajors(Collect(raw), raw.mainSha, i);
    CollectMeans(raw, Tops(Convert(raw))[i].major);
  }

  lemma MentionedIsFound(raw: Raw, m: nat)
    requires Proper(raw) && Mentions(raw, m)
    ensures Collect(raw).Keys != {} && FindMajor(Convert(raw), m).Some?
  {
    CollectMeans(raw, m);
    FoundMajor(Collect(raw), raw.mainSha, m);
  }

  // The container before another one in the sorted list is the next major mentioned.
  lemma NextIndex(raw: Raw, m: nat, v: nat)
    requires Proper(raw) && m < v && Mentions(raw, m) && Mentions(raw, v) && forall x | m < x < v :: !Mentions(raw, x)
    ensures var cs := Tops(Convert(raw));
            var i := MajorIndex(cs, m);
            Collect(raw).Keys != {} && 0 < i < |cs| && cs[i - 1].major == v && FindMajor(Convert(raw), m) == Some(cs[i])
  {
    MentionedIsFound(raw, m);
    MentionedIsFound(raw, v);
    ConvertIsSorted(raw);
    NoneBetween(raw, m, v);
    Neighbours(Convert(raw), m, v);
  }

  lemma NoneBetween(raw: Raw, m: nat, v: nat)
    requires Proper(raw) && Collect(raw).Keys != {} && forall x | m < x < v :: !Mentions(raw, x)
    ensures forall k | 0 <= k < |Tops(Convert(raw))| ::
              Tops(Convert(raw))[k].major <= m || v <= Tops(Convert(raw))[k].major
  {
    var cs := Tops(Convert(raw));
    forall k | 0 <= k < |cs| ensures cs[k].major <= m || v <= cs[k].major { ContainerMeans(raw, k); }
  }

  lemma NextMentioned(raw: Raw, m: nat, v: nat)
    requires Proper(raw) && m < v && Mentions(raw, m) && Mentions(raw, v) && forall x | m < x < v :: !Mentions(raw, x)
    ensures var c, next := FindMajor(Convert(raw), m), FindNextMajor(Convert(raw), m);
            && c.Some? && c.value.branch == LastBranch(raw.patchBranches, m)
            && next.Some? && next.value.start == LastStart(raw.majorTags, v)
  {
    NextIndex(raw, m, v);
    var i := MajorIndex(Tops(Convert(raw)), m);
    ContainerMeans(raw, i);
    ContainerMeans(raw, i - 1);
  }

  lemma Neighbours(root: Root, m: nat, v: nat)
    requires WellFormed(root) && m < v && FindMajor(root, m).Some? && FindMajor(root, v).Some?
    requires forall k | 0 <= k < |Tops(root)| :: Tops(root)[k].major <= m || v <= Tops(root)[k].major
    ensures var cs := Tops(root);
            var i := MajorIndex(cs, m);
            0 < i < |cs| && cs[i - 1].major == v && FindMajor(root, m) == Some(cs[i])
  {
    TopsIndex(root, m);
    TopsIndex(root, v);
    var cs := Tops(root);
    var i, j := MajorIndex(cs, m), MajorIndex(cs, v);
    assert j < i;
    assert cs[i - 1].major > cs[i].major;
  }

  lemma TopsIndex(root: Root, m: nat)
    requires FindMajor(root, m).Some?
    ensures MajorIndex(Tops(root), m) < |Tops(root)|
    ensures FindMajor(root, m) == Some(Tops(root)[MajorIndex(Tops(root), m)])
  {
    var cs := Tops(root);
    assert cs[0] == root.main;
    assert forall i | 0 <= i < |root.majors| :: cs[i + 1] == root.majors[i];
    if root.main.major != m { assert MajorIndex(cs, m) == 1 + MajorIndex(root.majors, m); }
  }

  // ---------------------------------------------------------------- what the reader answers

  // The highest major any ref mentions; 0 if there is none.
  ghost predicate IsHighest(raw: Raw, m: nat) {
    if exists x: nat :: Mentions(raw, x) then Mentions(raw, m) && forall x: nat | Mentions(raw, x) :: x <= m else m == 0
  }

  lemma NothingMentioned(raw: Raw)
    requires Proper(raw)
    ensures Collect(raw).Keys == {} <==> forall x: nat :: !Mentions(raw, x)
  {
    forall x: nat ensures x in Collect(raw).Keys <==> Mentions(raw, x) { CollectMeans(raw, x); }
    if Collect(raw).Keys != {} {
      var x :| x in Collect(raw).Keys;
      assert Mentions(raw, x);
    }
  }

  // The main container is that of the highest major, on the tip of main.
  lemma MainIsHighest(raw: Raw)
    requires Proper(raw)
    ensures Convert(raw).mainSha == raw.mainSha && IsHighest(raw, Convert(raw).main.major)
  {
    NothingMentioned(raw);
    if Collect(raw).Keys != {} {
      BuiltMajors(Collect(raw), raw.mainSha, 0);
      CollectMeans(raw, Convert(raw).main.major);
      forall x: nat | Mentions(raw, x) ensures x <= Convert(raw).main.major {
        CollectMeans(raw, x);
        assert x in Collect(raw).Keys;
      }
    }
  }

  lemma OneHighest(raw: Raw, m: nat, n: nat)
    requires IsHighest(raw, m) && IsHighest(raw, n)
    ensures m == n
  {
  }

  // There is a container for exactly the majors mentioned, and for main.
  lemma FoundIffMentioned(raw: Raw, m: nat)
    requires Proper(raw)
    ensures FindMajor(Convert(raw), m).Some? <==> Mentions(raw, m) || IsHighest(raw, m)
    ensures Convert(raw).main.major == m <==> IsHighest(raw, m)
    ensures Mentions(raw, m) ==>
              && FindMajor(Convert(raw), m).value.start == LastStart(raw.majorTags, m)
              && FindMajor(Convert(raw), m).value.branch
                 == if IsHighest(raw, m) then None else LastBranch(raw.patchBranches, m)
  {
    MainIsHighest(raw);
    NothingMentioned(raw);
    if IsHighest(raw, m) { OneHighest(raw, m, Convert(raw).main.major); }
    if Collect(raw).Keys != {} {
      CollectMeans(raw, m);
      FoundMajor(Collect(raw), raw.mainSha, m);
      BuiltMajors(Collect(raw), raw.mainSha, 0);
    }
  }

  // Main can always be released from, and so can patch-m if m is mentioned and not the highest.
  ghost predicate Releasable(raw: Raw, branch: BranchRef) {
    || branch.MainRef?
    || (&& branch.segments != [] && Mentions(raw, branch.segments[0])
        && exists x: nat :: x > branch.segments[0] && Mentions(raw, x))
  }

  lemma LowerIsNotHighest(raw: Raw, m: nat)
    requires Mentions(raw, m)
    ensures IsHighest(raw, m) <==> !exists x: nat :: x > m && Mentions(raw, x)
  {
  }

  lemma InMajors(root: Root, m: nat)
    requires root.main.major != m
    ensures MajorIndex(root.majors, m) < |root.majors| <==> FindMajor(root, m).Some?
  {
  }

  // The next version exists exactly for these branches, and it is of the highest major for main
  // and of the branch's own major otherwise.
  lemma NextVersionIff(raw: Raw, branch: BranchRef, kind: VersionType)
    requires Proper(raw)
    ensures NextVersion(Convert(raw), branch, kind).Some? <==> Releasable(raw, branch)
    ensures Releasable(raw, branch) ==>
              var next := NextVersion(Convert(raw), branch, kind).value;
              |next| == 3 && if branch.MainRef? then IsHighest(raw, next[0]) else next[0] == branch.segments[0]
  {
    NextHasThree(Convert(raw), branch, kind);
    if branch.MainRef? {
      MainIsHighest(raw);
    } else if branch.segments != [] {
      var m := branch.segments[0];
      FoundIffMentioned(raw, m);
      ConvertIsSorted(raw);
      NotAmongMajors(Convert(raw));
      if Convert(raw).main.major != m { InMajors(Convert(raw), m); }
      if Mentions(raw, m) { LowerIsNotHighest(raw, m); }
    }
  }

  lemma NotAmongMajors(root: Root)
    requires WellFormed(root)
    ensures MajorIndex(root.majors, root.main.major) == |root.majors|
  {
    var i := MajorIndex(root.majors, root.main.major);
    assert Tops(root)[0] == root.main;
    assert forall j | 0 <= j < |root.majors| :: Tops(root)[j + 1] == root.majors[j];
  }

  // `top` is the highest tagged version of its major.
  ghost predicate IsTop(raw: Raw, top: seq<nat>) {
    && |top| == 3 && Tagged(raw, top)
    && forall w: seq<nat> | |w| == 3 && w[0] == top[0] && Tagged(raw, w) :: !Less(top, w)
  }

  // Its value: the next minor or the next patch of the highest version of its major, and M.0.0 for
  // a major that has none.
  lemma NextVersionIs(raw: Raw, branch: BranchRef, kind: VersionType, top: seq<nat>)
    requires Proper(raw) && Releasable(raw, branch)
    ensures NextVersion(Convert(raw), branch, kind).Some?
    ensures var next := NextVersion(Convert(raw), branch, kind).value;
            && |next| == 3
            && (IsTop(raw, top) && top[0] == next[0] ==>
                next == if kind.MinorRelease? then [top[0], top[1] + 1, 0] else [top[0], top[1], top[2] + 1])
            && (!HasVersion(raw, next[0]) ==> next == [next[0], 0, 0])
  {
    NextVersionIff(raw, branch, kind);
    var next := NextVersion(Convert(raw), branch, kind).value;
    var base := NextFollows(raw, branch, kind);
    if IsTop(raw, top) && top[0] == next[0] {
      assert HasVersion(raw, next[0]);
      ReleaseFits(raw, branch, kind, top);
      BetweenBaseAndNext(base, kind, top);
    }
  }

  // Nothing lies between a version and its successor, but patches of a minor.
  lemma BetweenBaseAndNext(base: seq<nat>, kind: VersionType, top: seq<nat>)
    requires |base| == |top| == 3 && base[0] == top[0] && !Less(top, base) && Less(top, Successor(base, kind))
    ensures Successor(top, kind) == Successor(base, kind)
  {
    var next := Successor(base, kind);
    ThreeLess(top, base);
    ThreeLess(top, next);
    BetweenNumbers(base[1], base[2], top[1], top[2], next[1], next[2], kind);
  }

  lemma BetweenNumbers(b1: nat, b2: nat, t1: nat, t2: nat, n1: nat, n2: nat, kind: VersionType)
    requires if kind.MinorRelease? then n1 == b1 + 1 && n2 == 0 else n1 == b1 && n2 == b2 + 1
    requires !(t1 < b1 || (t1 == b1 && t2 < b2)) && (t1 < n1 || (t1 == n1 && t2 < n2))
    ensures t1 == b1 && (kind.PatchRelease? ==> t2 == b2)
  {
  }

  // The highest major is read from and written to on the tip of main.
  lemma HighestResolves(raw: Raw, m: nat)
    requires Proper(raw) && IsHighest(raw, m)
    ensures ReadSha(Convert(raw), m) == Some(raw.mainSha)
    ensures ResolveWriteBranch(Convert(raw), m) == Some(WriteBranch(raw.mainSha, MainRef, true))
    ensures FindBranch(Convert(raw), m, None) == Some(raw.mainSha) && FindNextMajor(Convert(raw), m).None?
  {
    MainIsHighest(raw);
    FoundIffMentioned(raw, m);
  }

  // A major nobody mentions is not found.
  lemma UnmentionedIsUnresolved(raw: Raw, m: nat)
    requires Proper(raw) && !Mentions(raw, m) && !IsHighest(raw, m)
    ensures ReadSha(Convert(raw), m).None? && ResolveWriteBranch(Convert(raw), m).None?
    ensures FindBranch(Convert(raw), m, None).None? && FindNextMajor(Convert(raw), m).None?
  {
    FoundIffMentioned(raw, m);
    ShasAgree(Convert(raw), m);
    InMajors(Convert(raw), m);
  }

  // Any other major is read from and written to on its branch or, without one, on the start of the
  // next major mentioned; that is the next major.
  lemma LowerResolves(raw: Raw, m: nat, v: nat)
    requires Proper(raw) && m < v && Mentions(raw, m) && Mentions(raw, v) && forall x | m < x < v :: !Mentions(raw, x)
    ensures var branch, start := LastBranch(raw.patchBranches, m), LastStart(raw.majorTags, v);
            && ReadSha(Convert(raw), m) == (if branch.Some? then branch else start)
            && ResolveWriteBranch(Convert(raw), m)
               == (if branch.Some? then Some(WriteBranch(branch.value, PatchRef([m]), true))
                   else if start.Some? then Some(WriteBranch(start.value, PatchRef([m]), false))
                   else None)
            && FindBranch(Convert(raw), m, None) == branch
    ensures FindNextMajor(Convert(raw), m).Some? && FindNextMajor(Convert(raw), m).value.major == v
  {
    FoundIffMentioned(raw, m);
    LowerIsNotHighest(raw, m);
    NextIndex(raw, m, v);
    NextMentioned(raw, m, v);
    ShasAgree(Convert(raw), m);
  }

  lemma AnchoredResolves(raw: Raw, m: nat, v: nat, s: Sha)
    requires Proper(raw) && Anchored(raw, m, v, s)
    ensures ReadSha(Convert(raw), m) == Some(s)
    ensures ResolveWriteBranch(Convert(raw), m) == Some(WriteBranch(s, PatchRef([m]), false))
  {
    NextMentioned(raw, m, v);
    ShasAgree(Convert(raw), m);
  }

  lemma AppendMeans(raw: Raw, step: Step, x: nat)
    requires Proper(raw) && Mentions(raw, x)
    ensures Mentions(Do(raw, step), x)
  {
    var r := Do(raw, step);
    if step.DoRelease? && r != raw { assert r.releaseTags[..|raw.releaseTags|] == raw.releaseTags; }
    if step.OpenMajor? && r != raw { assert r.majorTags[..|raw.majorTags|] == raw.majorTags; }
    if step.CreatePatchBranch? && r != raw { assert r.patchBranches[..|raw.patchBranches|] == raw.patchBranches; }
    if step.MovePatch? && r != raw { MoveKeeps(raw.patchBranches, step.index, step.sha, x); }
  }

  lemma {:induction false} MoveKeeps(ts: seq<NumbersSha>, i: nat, sha: Sha, x: nat)
    requires i < |ts|
    ensures LastBranch(ts[i := ts[i].(sha := sha)], x).Some? <==> LastBranch(ts, x).Some?
  {
    var n := |ts| - 1;
    var us := ts[i := ts[i].(sha := sha)];
    if i < n {
      assert us[..n] == ts[..n][i := ts[..n][i].(sha := sha)];
      MoveKeeps(ts[..n], i, sha, x);
    } else {
      assert us[..n] == ts[..n];
    }
  }

  // The major a release or a patch branch is for is mentioned already.
  lemma OnlyKnownMajors(raw: Raw, step: Step, x: nat)
    requires Proper(raw) && Collect(raw).Keys != {} && Mentions(Do(raw, step), x) && !Mentions(raw, x)
    ensures step.OpenMajor? && x == step.value && x > Convert(raw).main.major
  {
    var r, root := Do(raw, step), Convert(raw);
    match step
    case DoRelease(branch, kind, sha) =>
      assert r.releaseTags[..|raw.releaseTags|] == raw.releaseTags;
      var i := if branch.MainRef? then 0 else 1 + MajorIndex(root.majors, branch.segments[0]);
      if branch.PatchRef? { assert Tops(root)[i] == root.majors[i - 1]; }
      BuiltMajors(Collect(raw), raw.mainSha, i);
      CollectMeans(raw, Tops(root)[i].major);
    case OpenMajor(value) => assert r.majorTags[..|raw.majorTags|] == raw.majorTags;
    case CreatePatchBranch(k) =>
      assert r.patchBranches[..|raw.patchBranches|] == raw.patchBranches;
      BuiltMajors(Collect(raw), raw.mainSha, MajorIndex(Tops(root), k));
      CollectMeans(raw, k);
    case MoveMain(_) =>
    case MovePatch(i, sha) => MoveKeeps(raw.patchBranches, i, sha, x);
  }

  predicate Creates(raw: Raw, step: Step, m: nat)
    requires Proper(raw)
  {
    step == CreatePatchBranch(m) && Do(raw, step) != raw
  }

  lemma GapHolds(raw: Raw, step: Step, m: nat, v: nat)
    requires Proper(raw) && Mentions(raw, v) && forall x | m < x < v :: !Mentions(raw, x)
    ensures forall x | m < x < v :: !Mentions(Do(raw, step), x)
  {
    CollectMeans(raw, v);
    BuiltMajors(Collect(raw), raw.mainSha, 0);
    assert Convert(raw).main.major >= v;
    forall x | m < x < v ensures !Mentions(Do(raw, step), x) {
      if Mentions(Do(raw, step), x) { OnlyKnownMajors(raw, step, x); }
    }
  }

  lemma AnchorHolds(raw: Raw, step: Step, m: nat, v: nat, s: Sha)
    requires Proper(raw) && Anchored(raw, m, v, s) && !Creates(raw, step, m)
    ensures Anchored(Do(raw, step), m, v, s)
  {
    var r := Do(raw, step);
    GapHolds(raw, step, m, v);
    AppendMeans(raw, step, m);
    CollectMeans(raw, v);
    BuiltMajors(Collect(raw), raw.mainSha, 0);
    assert Convert(raw).main.major >= v;
    if step.OpenMajor? && r != raw { assert r.majorTags[..|raw.majorTags|] == raw.majorTags; }
    if step.CreatePatchBranch? && r != raw { assert r.patchBranches[..|raw.patchBranches|] == raw.patchBranches; }
    if step.MovePatch? && r != raw { MoveKeeps(raw.patchBranches, step.index, step.sha, m); }
  }

  // No step of the run creates the branch patch-<m>.
  predicate Spares(raw: Raw, run: seq<Step>, m: nat)
    requires Proper(raw)
  {
    run == [] || (Spares(raw, run[..|run| - 1], m) && !Creates(After(raw, run[..|run| - 1]), run[|run| - 1], m))
  }

  lemma {:induction false} AnchorHoldsOverRuns(raw: Raw, run: seq<Step>, m: nat, v: nat, s: Sha)
    requires Proper(raw) && Anchored(raw, m, v, s) && Spares(raw, run, m)
    ensures Anchored(After(raw, run), m, v, s)
  {
    if run != [] {
      AnchorHoldsOverRuns(raw, run[..|run| - 1], m, v, s);
      AnchorHolds(After(raw, run[..|run| - 1]), run[|run| - 1], m, v, s);
    }
  }

  lemma OpeningAnchors(raw: Raw, value: nat)
    requires Proper(raw) && value > Convert(raw).main.major
    requires Mentions(raw, Convert(raw).main.major) && LastBranch(raw.patchBranches, Convert(raw).main.major).None?
    ensures Anchored(Do(raw, OpenMajor(value)), Convert(raw).main.major, value, raw.mainSha)
  {
    var m, r := Convert(raw).main.major, Do(raw, OpenMajor(value));
    assert r.majorTags[..|raw.majorTags|] == raw.majorTags;
    CollectMeans(raw, m);
    BuiltMajors(Collect(raw), raw.mainSha, 0);
    AppendMeans(raw, OpenMajor(value), m);
    forall x | m < x < value ensures !Mentions(r, x) {
      CollectMeans(raw, x);
      if Mentions(r, x) { OnlyKnownMajors(raw, OpenMajor(value), x); }
    }
  }

  // When a new major is opened on the tip of main, the major before it (if it has a container
  // and no branch) is read from, and written from, that commit in every later state until its
  // patch branch is created.
  lemma PreviousMajorStays(raw: Raw, value: nat, run: seq<Step>)
    requires Proper(raw) && value > Convert(raw).main.major
    requires Mentions(raw, Convert(raw).main.major) && LastBranch(raw.patchBranches, Convert(raw).main.major).None?
    requires Proper(Do(raw, OpenMajor(value))) && Spares(Do(raw, OpenMajor(value)), run, Convert(raw).main.major)
    ensures var m := Convert(raw).main.major;
            var later := Convert(After(Do(raw, OpenMajor(value)), run));
            && ReadSha(later, m) == Some(raw.mainSha)
            && ResolveWriteBranch(later, m) == Some(WriteBranch(raw.mainSha, PatchRef([m]), false))
  {
    var m, begun := Convert(raw).main.major, Do(raw, OpenMajor(value));
    OpeningAnchors(raw, value);
    AnchorHoldsOverRuns(begun, run, m, value, raw.mainSha);
    AnchoredResolves(After(begun, run), m, value, raw.mainSha);
  }

  lemma {:induction false} NoBranchNamed(ts: seq<NumbersSha>, m: nat)
    requires LastBranch(ts, m).None?
    ensures forall b | b in ts :: b.numbers != [m]
  {
    if ts != [] {
      NoBranchNamed(ts[..|ts| - 1], m);
      assert ts == ts[..|ts| - 1] + [ts[|ts| - 1]];
    }
  }

  lemma BranchedResolves(raw: Raw, m: nat, s: Sha)
    requires Proper(raw) && LastBranch(raw.patchBranches, m) == Some(s) && exists v :: m < v && Mentions(raw, v)
    ensures ReadSha(Convert(raw), m) == Some(s)
    ensures ResolveWriteBranch(Convert(raw), m) == Some(WriteBranch(s, PatchRef([m]), true))
  {
    var v :| m < v && Mentions(raw, v);
    CollectMeans(raw, m);
    CollectMeans(raw, v);
    assert Top(Collect(raw).Keys) >= v;
    FoundMajor(Collect(raw), raw.mainSha, m);
    BuiltMajors(Collect(raw), raw.mainSha, 0);
  }

  lemma BranchIsCreated(raw: Raw, m: nat, v: nat, s: Sha)
    requires Proper(raw) && Anchored(raw, m, v, s)
    ensures Do(raw, CreatePatchBranch(m)) == raw.(patchBranches := raw.patchBranches + [NumbersSha([m], s)])
  {
    NextMentioned(raw, m, v);
    NoBranchNamed(raw.patchBranches, m);
  }

  // Creating the branch then succeeds and starts it at that same commit.
  lemma BranchStartsThere(raw: Raw, m: nat, v: nat, s: Sha)
    requires Proper(raw) && Anchored(raw, m, v, s)
    ensures var later := Do(raw, CreatePatchBranch(m));
            && later != raw && Proper(later)
            && ReadSha(Convert(later), m) == Some(s)
            && ResolveWriteBranch(Convert(later), m) == Some(WriteBranch(s, PatchRef([m]), true))
  {
    BranchIsCreated(raw, m, v, s);
    var later := raw.(patchBranches := raw.patchBranches + [NumbersSha([m], s)]);
    assert Mentions(later, v) && LastBranch(later.patchBranches, m) == Some(s);
    BranchedResolves(later, m, s);
  }

  // ---------------------------------------------------------------- the services

  // RepositoryConfig as far as a major series is concerned.
  datatype Serie = Serie(id: int, autoApply: bool)
  datatype Config = Config(majorSerie: Option<Serie>)
  datatype Action = EXISTS | CREATED | MANUAL | NOT_SUBSCRIBED | MISSING_CONFIG | ERROR

  // What the repository host and the publishers answer.
  datatype Reading = ReadingFails | Reads(config: Option<Config>)
  datatype Releasing = Succeeds | PublishingFails | TaggingFails

  predicate Subscribed(config: Option<Config>, id: int) {
    config.Some? && config.value.majorSerie.Some? && config.value.majorSerie.value.id == id
  }

  // The source follows the series and the new value is to be applied to it.
  predicate Applies(config: Option<Config>, id: int, forceApply: bool) {
    Subscribed(config, id) && (config.value.majorSerie.value.autoApply || forceApply)
  }

  class Repository {
    var raw: Raw

    constructor (raw: Raw)
      ensures this.raw == raw
    {
      this.raw := raw;
    }

    // release, first half: the next version by the model read.
    method ReadNext(branch: BranchRef, kind: VersionType) returns (v: Option<seq<nat>>)
      requires Proper(raw)
      ensures v == NextVersion(Convert(raw), branch, kind) && (v.Some? <==> Releasable(raw, branch))
    {
      NextVersionIff(raw, branch, kind);
      var root := ConvertModel(raw);
      v := NextVersion(root, branch, kind);
    }

    // release, second half, after publishing: the tag.
    method TagRelease(v: seq<nat>, sha: Sha)
      requires Proper(raw) && v != []
      modifies this
      ensures Proper(raw) && raw == old(raw).(releaseTags := old(raw).releaseTags + [NumbersSha(v, sha)])
    {
      raw := raw.(releaseTags := raw.releaseTags + [NumbersSha(v, sha)]);
    }

    // BuildSystemImpl.release with nothing in between: None when it is rejected.
    method Release(branch: BranchRef, kind: VersionType, sha: Sha, outside: Releasing) returns (v: Option<seq<nat>>)
      requires Proper(raw)
      modifies this
      ensures Proper(raw) && raw == if outside.Succeeds? then Do(old(raw), DoRelease(branch, kind, sha)) else old(raw)
      ensures v == if outside.Succeeds? then NextVersion(Convert(old(raw)), branch, kind) else None
      ensures v.Some? <==> outside.Succeeds? && Releasable(old(raw), branch)
      ensures v.Some? ==> raw == old(raw).(releaseTags := old(raw).releaseTags + [NumbersSha(v.value, sha)])
      ensures v.None? ==> raw == old(raw)
    {
      NextVersionIff(raw, branch, kind);
      v := ReadNext(branch, kind);
      if v.None? || !outside.Succeeds? { return None; }
      NextHasThree(Convert(raw), branch, kind);
      TagRelease(v.value, sha);
    }

    // MajorApplicationServiceImpl.processSource
    method ProcessSource(reading: Reading, id: int, value: nat, forceApply: bool, modelReads: bool, tagCreated: bool)
        returns (action: Action)
      requires Proper(raw)
      modifies this
      ensures Proper(raw)
      ensures raw == if action.CREATED? then Do(old(raw), OpenMajor(value)) else old(raw)
      ensures action.MISSING_CONFIG? <==> reading == Reads(None)
      ensures action.ERROR? <==>
                reading.ReadingFails? || (Applies(reading.config, id, forceApply) && !modelReads)
      ensures action.CREATED? <==>
                && reading.Reads? && Applies(reading.config, id, forceApply) && modelReads
                && value > Convert(old(raw)).main.major && tagCreated
      ensures action.EXISTS? <==>
                && reading.Reads? && Applies(reading.config, id, forceApply) && modelReads
                && (value <= Convert(old(raw)).main.major || !tagCreated)
      ensures match reading
              case ReadingFails => action == ERROR
              case Reads(None) => action == MISSING_CONFIG
              case Reads(Some(Config(None))) => action == NOT_SUBSCRIBED
              case Reads(Some(Config(Some(Serie(serie, auto))))) =>
                if serie != id then action == NOT_SUBSCRIBED
                else if !auto && !forceApply then action == MANUAL
                else if !modelReads then action == ERROR
                else if tagCreated && value > Convert(old(raw)).main.major then action == CREATED
                else action == EXISTS
      ensures action.MANUAL? <==>
                reading.Reads? && Subscribed(reading.config, id) && !Applies(reading.config, id, forceApply)
    {
      StepIsProper(raw, OpenMajor(value));
      if reading.ReadingFails? {
        action := ERROR;
      } else if reading.config.None? {
        action := MISSING_CONFIG;
      } else if reading.config.value.majorSerie.None? || reading.config.value.majorSerie.value.id != id {
        action := NOT_SUBSCRIBED;
      } else if reading.config.value.majorSerie.value.autoApply || forceApply {
        if !modelReads { return ERROR; }
        var root := ConvertModel(raw);
        if value > root.main.major && tagCreated {
          raw := raw.(majorTags := raw.majorTags + [NumberSha(value, raw.mainSha)]);
          action := CREATED;
        } else {
          action := EXISTS;
        }
      } else {
        action := MANUAL;
      }
    }
  }
}
