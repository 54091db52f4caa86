// The scan of a dependencies file for updates, and the selectors that choose versions.
module DependencyScan {
  import opened Options
  import opened Versions
  import opened VersionTrie
  import opened DependencyFile

  // ---------------------------------------------------------------- selectors

  datatype Selector =
    | HighestInMajorOrHighest(targetMajor: int, targetSerie: string)
    | HighestInMajorOrKeepMajor(targetMajor: int, targetSerie: string)
    | Highest
    | HighestMinorKeepMajor

  function Bound(selector: Selector, current: Version, serie: Option<string>): Option<int> {
    match selector
    case HighestInMajorOrHighest(major, target) => if serie == Some(target) then Some(major) else None
    case HighestInMajorOrKeepMajor(major, target) => if serie == Some(target) then Some(major) else Some(current[0])
    case Highest => None
    case HighestMinorKeepMajor => Some(current[0])
  }

  function Pick(selector: Selector, versions: seq<Version>, current: Version, serie: Option<string>): Option<Version> {
    var r := GetHighestVersion(Container(versions), Bound(selector, current, serie));
    GetHighestIsPreferred(versions, Bound(selector, current, serie), [0, 0]);
    match r case None => None case Some(v) => Some(v)
  }

  // The highest version within a bound is also the highest within its own major.
  lemma HighestWithinItself(versions: seq<Version>, max: Option<int>, r: Version)
    requires GetHighestVersion(Container(versions), max) == Some(r)
    ensures GetHighestVersion(Container(versions), Some(r[0])) == Some(r)
  {
    GetHighestIsPreferred(versions, max, r);
    GetHighestIsPreferred(versions, Some(r[0]), r);
    var q := GetHighestVersion(Container(versions), Some(r[0])).value;
    GetHighestIsPreferred(versions, max, q);
    GetHighestIsPreferred(versions, Some(r[0]), q);
    if q != r {
      BeatsIsAsymmetric(q, r);
    }
  }

  // Every selector is at rest on what it picks.
  lemma PickIsStable(selector: Selector, versions: seq<Version>, current: Version, serie: Option<string>)
    ensures var r := Pick(selector, versions, current, serie);
            r.Some? ==> Pick(selector, versions, r.value, serie) == r
  {
    var r := Pick(selector, versions, current, serie);
    if r.Some? { HighestWithinItself(versions, Bound(selector, current, serie), r.value); }
  }

  // `r` is the best of the versions that are admissible: there is one if any is, it beats all others,
  // and so it is the maximum under compare among those of its length.
  ghost predicate IsBest(versions: seq<Version>, admissible: Version -> bool, r: Option<Version>) {
    && (r.Some? <==> exists w :: w in versions && admissible(w))
    && (r.Some? ==>
        && r.value in versions && admissible(r.value)
        && forall w | w in versions && admissible(w) ::
             && (w == r.value || Beats(r.value, w))
             && (|w| == |r.value| ==> Difference(r.value, w) >= 0))
  }

  lemma HighestIsBest(versions: seq<Version>, max: Option<int>, admissible: Version -> bool, r: Option<Version>)
    requires forall w: Version :: admissible(w) <==> InBound(w, max)
    requires GetHighestVersion(Container(versions), max) == match r { case None => None case Some(v) => Some(v) }
    ensures IsBest(versions, admissible, r)
  {
    GetHighestIsPreferred(versions, max, [0, 0]);
    forall w: Version | w in versions && admissible(w)
      ensures r.Some? && (w == r.value || Beats(r.value, w)) && (|w| == |r.value| ==> Difference(r.value, w) >= 0)
    {
      GetHighestIsPreferred(versions, max, w);
      CompareIsLexicographic(r.value, w);
      if w != r.value { BeatsOrLower(r.value, w); }
    }
  }

  // At most one version is the best, so the following four say what each selector picks.
  lemma BestIsUnique(versions: seq<Version>, admissible: Version -> bool, r: Option<Version>, q: Option<Version>)
    requires IsBest(versions, admissible, r) && IsBest(versions, admissible, q)
    ensures r == q
  {
    if r.Some? && q.Some? && r != q { BeatsIsAsymmetric(r.value, q.value); }
  }

  // In the target series: the best version up to the target major. Otherwise: the best of all.
  lemma PicksInMajorOrHighest(major: int, target: string, versions: seq<Version>, current: Version,
                              serie: Option<string>)
    ensures IsBest(versions, (w: Version) => serie == Some(target) ==> w[0] <= major,
                   Pick(HighestInMajorOrHighest(major, target), versions, current, serie))
  {
    HighestIsBest(versions, if serie == Some(target) then Some(major) else None,
                  (w: Version) => serie == Some(target) ==> w[0] <= major,
                  Pick(HighestInMajorOrHighest(major, target), versions, current, serie));
  }

  // In the target series: the best version up to the target major. Otherwise: up to the current one.
  lemma PicksInMajorOrKeepMajor(major: int, target: string, versions: seq<Version>, current: Version,
                                serie: Option<string>)
    ensures IsBest(versions, (w: Version) => if serie == Some(target) then w[0] <= major else w[0] <= current[0],
                   Pick(HighestInMajorOrKeepMajor(major, target), versions, current, serie))
  {
    HighestIsBest(versions, Some(if serie == Some(target) then major else current[0]),
                  (w: Version) => if serie == Some(target) then w[0] <= major else w[0] <= current[0],
                  Pick(HighestInMajorOrKeepMajor(major, target), versions, current, serie));
  }

  lemma PicksHighest(versions: seq<Version>, current: Version, serie: Option<string>)
    ensures IsBest(versions, (w: Version) => true, Pick(Highest, versions, current, serie))
  {
    HighestIsBest(versions, None, (w: Version) => true, Pick(Highest, versions, current, serie));
  }

  lemma PicksMinorOfMajor(versions: seq<Version>, current: Version, serie: Option<string>)
    ensures IsBest(versions, (w: Version) => w[0] <= current[0], Pick(HighestMinorKeepMajor, versions, current, serie))
  {
    HighestIsBest(versions, Some(current[0]), (w: Version) => w[0] <= current[0],
                  Pick(HighestMinorKeepMajor, versions, current, serie));
  }

  // A selector bounded by the current major keeps it exactly when the container has a version
  // of that major; otherwise it falls to a lower one.
  lemma KeepsMajorIff(selector: Selector, versions: seq<Version>, current: Version, serie: Option<string>)
    requires Bound(selector, current, serie) == Some(current[0])
    ensures var r := Pick(selector, versions, current, serie);
            && (r.Some? <==> exists w | w in versions :: w[0] <= current[0])
            && (r.Some? ==> r.value in versions && r.value[0] <= current[0])
            && ((r.Some? && r.value[0] == current[0]) <==> exists w | w in versions :: w[0] == current[0])
  {
    var r := Pick(selector, versions, current, serie);
    GetHighestIsPreferred(versions, Some(current[0]), current);
    forall w: Version | w in versions && w[0] <= current[0]
      ensures r.Some? && w[0] <= r.value[0]
    {
      GetHighestIsPreferred(versions, Some(current[0]), w);
    }
  }

  // With only 1.0 published, 2.0 is rewritten to 1.0 although its major is to be kept.
  lemma KeepMajorCanFall()
    ensures Pick(HighestMinorKeepMajor, [[1, 0]], [2, 0], None) == Some([1, 0])
  {
    var only: Version := [1, 0];
    KeepsMajorIff(HighestMinorKeepMajor, [only], [2, 0], None);
    assert only in [only] && only[0] <= 2;
  }

  // ---------------------------------------------------------------- one item

  // What is published for a reference, and the major serie of the repository it comes from. A
  // reference that cannot be looked up is missing.
  datatype Entry = Entry(versions: seq<Version>, serie: Option<string>)
  datatype Lookup = Lookup(registry: map<Ref, Entry>, selector: Selector)

  // DependencyProviderImpl.getVersion
  function GetVersion(lookup: Lookup, ref: Ref, current: Version): Option<Version> {
    if ref in lookup.registry
    then Pick(lookup.selector, lookup.registry[ref].versions, current, lookup.registry[ref].serie)
    else None
  }

  // The revision that replaces the one of an item with this reference, if any.
  function Replacement(lookup: Lookup, ref: Ref, revision: string): Option<string> {
    match Parse(revision)
    case None => None
    case Some(current) =>
      match GetVersion(lookup, ref, current)
      case None => None
      case Some(newest) => if Difference(newest, current) != 0 then Some(AsString(newest)) else None
  }

  function UpdaterOf(lookup: Lookup): Updater { (ref, revision) => Replacement(lookup, ref, revision) }

  lemma ReplacedOnce(lookup: Lookup, ref: Ref, revision: string)
    requires Replacement(lookup, ref, revision).Some?
    ensures Replacement(lookup, ref, Replacement(lookup, ref, revision).value).None?
  {
    var current: Version := Parse(revision).value;
    var newest := GetVersion(lookup, ref, current).value;
    var entry := lookup.registry[ref];
    ParseOfAsString(newest);
    PickIsStable(lookup.selector, entry.versions, current, entry.serie);
    CompareIsLexicographic(newest, newest);
  }

  lemma UpdatersSettle(lookup: Lookup)
    ensures Settles(UpdaterOf(lookup))
  {
    var up := UpdaterOf(lookup);
    forall ref, revision | up(ref, revision).Some? ensures up(ref, up(ref, revision).value).None? {
      ReplacedOnce(lookup, ref, revision);
    }
  }

  // A revision is replaced exactly when it reads as a version other than the one selected.
  lemma ReplacedIff(lookup: Lookup, ref: Ref, revision: string)
    ensures Replacement(lookup, ref, revision).Some? <==>
              && Parse(revision).Some?
              && GetVersion(lookup, ref, Parse(revision).value).Some?
              && GetVersion(lookup, ref, Parse(revision).value).value != Parse(revision).value
    ensures Replacement(lookup, ref, revision).Some? ==>
              Parse(Replacement(lookup, ref, revision).value)
              == Some(GetVersion(lookup, ref, Parse(revision).value).value)
  {
    if Parse(revision).Some? && GetVersion(lookup, ref, Parse(revision).value).Some? {
      var newest := GetVersion(lookup, ref, Parse(revision).value).value;
      CompareIsLexicographic(newest, Parse(revision).value);
      ParseOfAsString(newest);
    }
  }

  // ---------------------------------------------------------------- the scan

  // Provider.scan: one update for every wanted label whose rewritten file differs, and no other.
  method Scan(lookup: Lookup, config: Option<Config>, criteria: Criteria) returns (r: ScanResult)
    ensures config.None? ==> r == ScanResult([], [])
    ensures config.Some? ==>
              forall u :: u in r.updates <==>
                (Carries(config.value, u.name) && Wants(criteria, u.name)
                 && u.content == Rewrite(UpdaterOf(lookup), config.value, u.name) && u.content != config.value)
    ensures NamesDiffer(r.updates)
    ensures config.Some? ==>
              forall ref :: ref in r.allDependencies <==>
                exists l :: Carries(config.value, l) && Wants(criteria, l) && ref in Refs(config.value, l)
    ensures forall i, j | 0 <= i < j < |r.allDependencies| :: r.allDependencies[i] != r.allDependencies[j]
  {
    if config.None? {
      return ScanResult([], []);
    }
    var all := AllLabels(config.value);
    var labels := Relevant(criteria, all);
    assert forall l :: l in labels <==> Carries(config.value, l) && Wants(criteria, l);
    UpdatersSettle(lookup);
    var updates, refs := ScanLabels(UpdaterOf(lookup), config.value, labels);
    UpdatesDiffer(UpdaterOf(lookup), config.value, labels);
    forall u
      ensures u in updates <==>
                (u.name in labels && u.content == Rewrite(UpdaterOf(lookup), config.value, u.name)
                 && u.content != config.value)
    {
      UpdatesAre(UpdaterOf(lookup), config.value, labels, u);
    }
    forall ref ensures ref in refs <==> exists l :: l in labels && ref in Refs(config.value, l) {
      AllRefsAre(config.value, labels, ref);
    }
    r := ScanResult(Uniq(refs), updates);
  }

  // The revision an item has after an update for a label: if it carries the label, its reference is
  // published and its revision reads as a version other than the one picked, the text of that
  // version, and otherwise its own.
  ghost predicate RightRevision(lookup: Lookup, carries: bool, ref: Option<Ref>, was: string, now: string) {
    if carries && ref.Some? && ref.value in lookup.registry && Parse(was).Some?
    then
      var entry := lookup.registry[ref.value];
      var picked := Pick(lookup.selector, entry.versions, Parse(was).value, entry.serie);
      now == if picked.Some? && picked.value != Parse(was).value then AsString(picked.value) else was
    else now == was
  }

  lemma RevisedRightly(lookup: Lookup, labels: Option<string>, ref: Option<Ref>, was: string, name: string)
    ensures var r := Revised(UpdaterOf(lookup), labels, ref, was, name);
            RightRevision(lookup, name in LabelsOf(labels), ref, was, if r.Some? then r.value else was)
  {
    if ref.Some? && Parse(was).Some? && GetVersion(lookup, ref.value, Parse(was).value).Some? {
      CompareIsLexicographic(GetVersion(lookup, ref.value, Parse(was).value).value, Parse(was).value);
    }
  }

  // In the content of an update every artifact and every image has the revision it should.
  lemma ArtifactRevisedRightly(lookup: Lookup, config: Config, name: string, k: nat)
    requires config.artifacts.Some? && k < |config.artifacts.value.items|
    ensures var b := Rewrite(UpdaterOf(lookup), config, name);
            && b.artifacts.Some? && |b.artifacts.value.items| == |config.artifacts.value.items|
            && var was, now := config.artifacts.value.items[k], b.artifacts.value.items[k];
            && now == was.(revision := now.revision)
            && RightRevision(lookup, name in LabelsOf(was.labels), RefOfArtifact(config.artifacts.value, was),
                             was.revision, now.revision)
  {
    var was := config.artifacts.value.items[k];
    RevisedRightly(lookup, was.labels, RefOfArtifact(config.artifacts.value, was), was.revision, name);
  }

  lemma ImageRevisedRightly(lookup: Lookup, config: Config, name: string, k: nat)
    requires config.images.Some? && k < |config.images.value.images|
    ensures var b := Rewrite(UpdaterOf(lookup), config, name);
            && b.images.Some? && |b.images.value.images| == |config.images.value.images|
            && var was, now := config.images.value.images[k], b.images.value.images[k];
            && now == was.(revision := now.revision)
            && RightRevision(lookup, name in LabelsOf(was.labels), RefOfImage(config.images.value, was),
                             was.revision, now.revision)
  {
    var was := config.images.value.images[k];
    RevisedRightly(lookup, was.labels, RefOfImage(config.images.value, was), was.revision, name);
  }

  // An update for a label changes only revisions of items carrying it, at least one of them, and
  // the rewritten file has no update for that label, under any criteria.
  lemma UpdatesSettle(lookup: Lookup, config: Config, labels: seq<string>, u: Update, again: seq<string>, v: Update)
    requires u in Updates(UpdaterOf(lookup), config, labels)
    ensures OnlyRevisions(config, u.content, u.name) && u.content != config
    ensures v in Updates(UpdaterOf(lookup), u.content, again) ==> v.name != u.name
  {
    UpdatersSettle(lookup);
    UpdatesAre(UpdaterOf(lookup), config, labels, u);
    UpdatesAre(UpdaterOf(lookup), u.content, again, v);
    ChangesOnlyRevisions(UpdaterOf(lookup), config, u.name);
    RewritesCommute(UpdaterOf(lookup), config, u.name, u.name);
  }

  // Once the updates for some labels have been applied in any order, a scan for any of them
  // finds nothing.
  lemma ScansSettle(lookup: Lookup, config: Config, labels: seq<string>, again: seq<string>)
    requires forall l | l in again :: l in labels
    ensures Updates(UpdaterOf(lookup), Applied(UpdaterOf(lookup), config, labels), again) == []
  {
    UpdatersSettle(lookup);
    var settled := Applied(UpdaterOf(lookup), config, labels);
    var us := Updates(UpdaterOf(lookup), settled, again);
    if us != [] {
      UpdatesAre(UpdaterOf(lookup), settled, again, us[0]);
      AppliedSettles(UpdaterOf(lookup), config, labels, us[0].name);
    }
  }
}
