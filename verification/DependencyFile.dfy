// A dependencies file and the updates a scan finds in it, for any way of choosing revisions.
module DependencyFile {
  import opened Options
  import opened Versions

  // ---------------------------------------------------------------- the file

  datatype Ref = ArtifactRef(remote: string, repository: string, path: string)
               | ImageRef(remote: string, repository: string)

  datatype ArtifactFile = ArtifactFile(name: string, rename: Option<string>, toDir: Option<string>)
  datatype Artifact = Artifact(remote: Option<string>, repository: Option<string>, path: string, revision: string,
                               toDir: Option<string>, labels: Option<string>, files: seq<ArtifactFile>)
  datatype Artifacts = Artifacts(remote: Option<string>, repository: Option<string>, items: seq<Artifact>,
                                 toDir: Option<string>, logFile: Option<string>)
  datatype Image = Image(repository: string, revision: string, remote: Option<string>, labels: Option<string>)
  datatype Images = Images(remote: Option<string>, images: seq<Image>)
  datatype Config = Config(version: int, artifacts: Option<Artifacts>, images: Option<Images>)

  // a || b on strings: the first that is neither missing nor empty.
  function Or(a: Option<string>, b: Option<string>): Option<string> {
    if a.Some? && a.value != "" then a else if b.Some? && b.value != "" then b else None
  }

  const DEFAULT_LABEL_NAME := "default"

  // splitAndFilter: the words between white space and commas.
  predicate IsSeparator(c: char) { IsSpace(c) || c == ',' }

  function WordLength(s: string): (n: nat)
    ensures n <= |s| && (s != [] && !IsSeparator(s[0]) ==> n > 0)
  {
    if s == [] || IsSeparator(s[0]) then 0 else 1 + WordLength(s[1..])
  }

  function Words(s: string): seq<string>
    decreases |s|
  {
    if s == [] then []
    else if IsSeparator(s[0]) then Words(s[1..])
    else [s[..WordLength(s)]] + Words(s[WordLength(s)..])
  }

  function LabelsOf(labels: Option<string>): seq<string> { Words(Or(labels, Some(DEFAULT_LABEL_NAME)).value) }

  function RefOfArtifact(c: Artifacts, a: Artifact): Option<Ref> {
    match (Or(a.remote, c.remote), Or(a.repository, c.repository))
    case (Some(remote), Some(repository)) => Some(ArtifactRef(remote, repository, a.path))
    case _ => None
  }

  function RefOfImage(c: Images, i: Image): Option<Ref> {
    match Or(i.remote, c.remote)
    case Some(remote) => Some(ImageRef(remote, i.repository))
    case None => None
  }

  // `x` is the item's own value, or the file's where the item has none; it is never empty.
  predicate Chosen(own: Option<string>, common: Option<string>, x: string) {
    x != "" && (own == Some(x) || ((own == None || own == Some("")) && common == Some(x)))
  }

  // An artifact refers to its own remote and repository, else to the file's, and to nothing if
  // one of them is missing in both places. So does an image, with the remote alone.
  lemma RefsMean(c: Artifacts, a: Artifact, d: Images, i: Image, ref: Ref)
    ensures RefOfArtifact(c, a) == Some(ref) <==>
              ref.ArtifactRef? && ref.path == a.path && Chosen(a.remote, c.remote, ref.remote)
              && Chosen(a.repository, c.repository, ref.repository)
    ensures RefOfImage(d, i) == Some(ref) <==>
              ref.ImageRef? && ref.repository == i.repository && Chosen(i.remote, d.remote, ref.remote)
  {
  }

  // `w` stands in the text between white space, commas or the ends, with none of them inside.
  ghost predicate IsWordAt(s: string, w: string, i: nat) {
    && w != [] && i + |w| <= |s| && s[i..i + |w|] == w
    && (forall k | 0 <= k < |w| :: !IsSpace(w[k]) && w[k] != ',')
    && (i == 0 || IsSpace(s[i - 1]) || s[i - 1] == ',')
    && (i + |w| == |s| || IsSpace(s[i + |w|]) || s[i + |w|] == ',')
  }

  lemma {:induction false} WordAtStart(s: string)
    ensures forall k | 0 <= k < WordLength(s) :: !IsSeparator(s[k])
    ensures WordLength(s) < |s| ==> IsSeparator(s[WordLength(s)])
  {
    if s != [] && !IsSeparator(s[0]) { WordAtStart(s[1..]); }
  }

  // The labels of an item are the words of its text, and "default" if it has none.
  lemma {:induction false} WordsAre(s: string, w: string)
    ensures w in Words(s) <==> exists i: nat :: IsWordAt(s, w, i)
    decreases |s|
  {
    if s == [] {
      assert forall i: nat :: !IsWordAt(s, w, i);
    } else if IsSeparator(s[0]) {
      WordsAre(s[1..], w);
      WordsAfterSeparator(s, w);
    } else {
      var n := WordLength(s);
      WordAtStart(s);
      WordsAre(s[n..], w);
      WordsAfterWord(s, w, n);
    }
  }

  // Where a word stands after the first n characters are cut off.
  lemma Shifted(s: string, w: string, n: nat, i: nat)
    requires n <= |s| && (i > 0 || n == 0 || IsSeparator(s[n - 1]))
    ensures IsWordAt(s[n..], w, i) <==> IsWordAt(s, w, n + i)
  {
    if n + i + |w| <= |s| { SliceOfRest(s, n, i, |w|); }
  }

  lemma SliceOfRest(s: string, n: nat, i: nat, k: nat)
    requires n + i + k <= |s|
    ensures s[n..][i..i + k] == s[n + i..n + i + k]
  {
  }

  lemma FirstOfWord(s: string, w: string, i: nat)
    requires IsWordAt(s, w, i)
    ensures !IsSeparator(s[i])
  {
    assert s[i..i + |w|][0] == s[i];
  }

  lemma WordsAfterSeparator(s: string, w: string)
    requires s != [] && IsSeparator(s[0])
    ensures (exists i: nat :: IsWordAt(s, w, i)) <==> exists i: nat :: IsWordAt(s[1..], w, i)
  {
    if exists i: nat :: IsWordAt(s, w, i) {
      var i: nat :| IsWordAt(s, w, i);
      FirstOfWord(s, w, i);
      Shifted(s, w, 1, i - 1);
    }
    if exists i: nat :: IsWordAt(s[1..], w, i) {
      var i: nat :| IsWordAt(s[1..], w, i);
      Shifted(s, w, 1, i);
    }
  }

  lemma WordsAfterWord(s: string, w: string, n: nat)
    requires 0 < n <= |s| && (forall k | 0 <= k < n :: !IsSeparator(s[k])) && (n < |s| ==> IsSeparator(s[n]))
    ensures (exists i: nat :: IsWordAt(s, w, i)) <==> w == s[..n] || exists i: nat :: IsWordAt(s[n..], w, i)
  {
    if exists i: nat :: IsWordAt(s, w, i) {
      var i: nat :| IsWordAt(s, w, i);
      if i == 0 {
        WordEnds(s, w, n);
      } else {
        assert IsSeparator(s[i - 1]);
        Shifted(s, w, n, i - n);
      }
    }
    if w == s[..n] {
      assert IsWordAt(s, w, 0);
    } else if exists i: nat :: IsWordAt(s[n..], w, i) {
      var i: nat :| IsWordAt(s[n..], w, i);
      FirstOfWord(s[n..], w, i);
      Shifted(s, w, n, i);
    }
  }

  lemma WordEnds(s: string, w: string, n: nat)
    requires 0 < n <= |s| && (forall k | 0 <= k < n :: !IsSeparator(s[k])) && (n < |s| ==> IsSeparator(s[n]))
    requires IsWordAt(s, w, 0)
    ensures w == s[..n]
  {
    assert forall k | 0 <= k < |w| :: w[k] == s[k];
    assert |w| < |s| ==> IsSeparator(s[|w|]);
  }

  lemma LabelsMean(labels: Option<string>, w: string)
    ensures labels == None || labels == Some("") ==> (w in LabelsOf(labels) <==> w == "default")
    ensures labels.Some? && labels.value != "" ==>
              (w in LabelsOf(labels) <==> exists i: nat :: IsWordAt(labels.value, w, i))
  {
    if labels.Some? && labels.value != "" {
      WordsAre(labels.value, w);
    } else {
      DefaultIsOneWord();
    }
  }

  lemma DefaultIsOneWord()
    ensures Words("default") == ["default"]
  {
    WordIsWhole("default");
  }

  lemma {:induction false} NoSeparators(s: string)
    requires forall k | 0 <= k < |s| :: !IsSeparator(s[k])
    ensures WordLength(s) == |s|
  {
    if s != [] { NoSeparators(s[1..]); }
  }

  lemma WordIsWhole(s: string)
    requires s != [] && forall k | 0 <= k < |s| :: !IsSeparator(s[k])
    ensures Words(s) == [s]
  {
    NoSeparators(s);
    assert s[..|s|] == s && s[|s|..] == [];
    assert Words([]) == [];
  }

  // ---------------------------------------------------------------- one item

  // What replaces the revision of an item with a reference, if anything does.
  type Updater = (Ref, string) -> Option<string>

  // Nothing replaces a replacement; so no replacement is the revision it replaces.
  ghost predicate Settles(up: Updater) {
    forall ref, revision :: up(ref, revision).Some? ==> up(ref, up(ref, revision).value).None?
  }

  // The reference an item contributes to a label, and its revision after the update for it.
  function Found(labels: Option<string>, ref: Option<Ref>, name: string): seq<Ref> {
    if name in LabelsOf(labels) && ref.Some? then [ref.value] else []
  }

  function Revised(up: Updater, labels: Option<string>, ref: Option<Ref>, revision: string, name: string)
    : Option<string>
  {
    if name in LabelsOf(labels) && ref.Some? then up(ref.value, revision) else None
  }

  function RewriteArtifact(up: Updater, c: Artifacts, a: Artifact, name: string): Artifact {
    var revised := Revised(up, a.labels, RefOfArtifact(c, a), a.revision, name);
    if revised.Some? then a.(revision := revised.value) else a
  }

  function RewriteImage(up: Updater, c: Images, i: Image, name: string): Image {
    var revised := Revised(up, i.labels, RefOfImage(c, i), i.revision, name);
    if revised.Some? then i.(revision := revised.value) else i
  }

  // ---------------------------------------------------------------- one label

  function RewriteArtifacts(up: Updater, c: Artifacts, name: string): Artifacts {
    c.(items := seq(|c.items|, k requires 0 <= k < |c.items| => RewriteArtifact(up, c, c.items[k], name)))
  }

  function RewriteImages(up: Updater, c: Images, name: string): Images {
    c.(images := seq(|c.images|, k requires 0 <= k < |c.images| => RewriteImage(up, c, c.images[k], name)))
  }

  function Rewrite(up: Updater, config: Config, name: string): Config {
    config.(artifacts :=
              match config.artifacts { case None => None case Some(c) => Some(RewriteArtifacts(up, c, name)) },
            images :=
              match config.images { case None => None case Some(c) => Some(RewriteImages(up, c, name)) })
  }

  function ArtifactRefs(c: Artifacts, n: nat, name: string): seq<Ref>
    requires n <= |c.items|
  {
    if n == 0 then []
    else ArtifactRefs(c, n - 1, name) + Found(c.items[n - 1].labels, RefOfArtifact(c, c.items[n - 1]), name)
  }

  function ImageRefs(c: Images, n: nat, name: string): seq<Ref>
    requires n <= |c.images|
  {
    if n == 0 then []
    else ImageRefs(c, n - 1, name) + Found(c.images[n - 1].labels, RefOfImage(c, c.images[n - 1]), name)
  }

  function Refs(config: Config, name: string): seq<Ref> {
    (if config.artifacts.Some? then ArtifactRefs(config.artifacts.value, |config.artifacts.value.items|, name) else [])
    + (if config.images.Some? then ImageRefs(config.images.value, |config.images.value.images|, name) else [])
  }

  method ReviseItem(up: Updater, labels: Option<string>, ref: Option<Ref>, revision: string, name: string)
    returns (revised: Option<string>, found: seq<Ref>)
    requires Settles(up)
    ensures revised == Revised(up, labels, ref, revision, name) && revised != Some(revision)
    ensures found == Found(labels, ref, name)
  {
    revised, found := None, [];
    if name in LabelsOf(labels) && ref.Some? {
      found := [ref.value];
      revised := up(ref.value, revision);
    }
  }

  // The first k items are rewritten, the others not yet.
  ghost predicate ArtifactsDone(up: Updater, c: Artifacts, items: seq<Artifact>, k: nat, name: string) {
    && |items| == |c.items|
    && (forall j | 0 <= j < |items| && j < k :: items[j] == RewriteArtifact(up, c, c.items[j], name))
    && (forall j | k <= j < |items| :: items[j] == c.items[j])
  }

  lemma ArtifactDone(up: Updater, c: Artifacts, items: seq<Artifact>, k: nat, name: string)
    requires ArtifactsDone(up, c, items, k, name) && k < |c.items|
    ensures items[k] == c.items[k]
    ensures ArtifactsDone(up, c, items[k := RewriteArtifact(up, c, c.items[k], name)], k + 1, name)
    ensures RewriteArtifact(up, c, c.items[k], name) == c.items[k] ==> ArtifactsDone(up, c, items, k + 1, name)
  {
  }

  lemma ArtifactsRewritten(up: Updater, c: Artifacts, items: seq<Artifact>, name: string)
    requires ArtifactsDone(up, c, items, |c.items|, name)
    ensures c.(items := items) == RewriteArtifacts(up, c, name)
    ensures ArtifactChanges(up, c, |c.items|, name) == 0 <==> c.(items := items) == c
  {
    ArtifactsUnchanged(up, c, |c.items|, name);
    assert items == RewriteArtifacts(up, c, name).items;
    assert c.(items := items) == c <==> items == c.items;
  }

  // How many of the first n items change.
  function ArtifactChanges(up: Updater, c: Artifacts, n: nat, name: string): nat
    requires n <= |c.items|
  {
    if n == 0 then 0
    else
      ArtifactChanges(up, c, n - 1, name)
      + if RewriteArtifact(up, c, c.items[n - 1], name) != c.items[n - 1] then 1 else 0
  }

  lemma {:induction false} ArtifactsUnchanged(up: Updater, c: Artifacts, n: nat, name: string)
    requires n <= |c.items|
    ensures ArtifactChanges(up, c, n, name) == 0
       <==> forall j | 0 <= j < n :: RewriteArtifact(up, c, c.items[j], name) == c.items[j]
  {
    if n > 0 { ArtifactsUnchanged(up, c, n - 1, name); }
  }

  method ScanArtifacts(up: Updater, c: Artifacts, name: string)
      returns (cloned: Artifacts, changes: nat, refs: seq<Ref>)
    requires Settles(up)
    ensures cloned == RewriteArtifacts(up, c, name)
    ensures changes == 0 <==> cloned == c
    ensures refs == ArtifactRefs(c, |c.items|, name)
  {
    var items := c.items;
    changes, refs := 0, [];
    for k := 0 to |c.items|
      invariant ArtifactsDone(up, c, items, k, name)
      invariant changes == ArtifactChanges(up, c, k, name)
      invariant refs == ArtifactRefs(c, k, name)
    {
      ArtifactDone(up, c, items, k, name);
      var a := items[k];
      var revised, found := ReviseItem(up, a.labels, RefOfArtifact(c, a), a.revision, name);
      refs := refs + found;
      if revised.Some? {
        items := items[k := a.(revision := revised.value)];
        changes := changes + 1;
      }
    }
    ArtifactsRewritten(up, c, items, name);
    cloned := c.(items := items);
  }

  // The first k items are rewritten, the others not yet.
  ghost predicate ImagesDone(up: Updater, c: Images, images: seq<Image>, k: nat, name: string) {
    && |images| == |c.images|
    && (forall j | 0 <= j < |images| && j < k :: images[j] == RewriteImage(up, c, c.images[j], name))
    && (forall j | k <= j < |images| :: images[j] == c.images[j])
  }

  lemma ImageDone(up: Updater, c: Images, images: seq<Image>, k: nat, name: string)
    requires ImagesDone(up, c, images, k, name) && k < |c.images|
    ensures images[k] == c.images[k]
    ensures ImagesDone(up, c, images[k := RewriteImage(up, c, c.images[k], name)], k + 1, name)
    ensures RewriteImage(up, c, c.images[k], name) == c.images[k] ==> ImagesDone(up, c, images, k + 1, name)
  {
  }

  lemma ImagesRewritten(up: Updater, c: Images, images: seq<Image>, name: string)
    requires ImagesDone(up, c, images, |c.images|, name)
    ensures c.(images := images) == RewriteImages(up, c, name)
    ensures ImageChanges(up, c, |c.images|, name) == 0 <==> c.(images := images) == c
  {
    ImagesUnchanged(up, c, |c.images|, name);
    assert images == RewriteImages(up, c, name).images;
    assert c.(images := images) == c <==> images == c.images;
  }

  // How many of the first n items change.
  function ImageChanges(up: Updater, c: Images, n: nat, name: string): nat
    requires n <= |c.images|
  {
    if n == 0 then 0
    else
      ImageChanges(up, c, n - 1, name)
      + if RewriteImage(up, c, c.images[n - 1], name) != c.images[n - 1] then 1 else 0
  }

  lemma {:induction false} ImagesUnchanged(up: Updater, c: Images, n: nat, name: string)
    requires n <= |c.images|
    ensures ImageChanges(up, c, n, name) == 0
       <==> forall j | 0 <= j < n :: RewriteImage(up, c, c.images[j], name) == c.images[j]
  {
    if n > 0 { ImagesUnchanged(up, c, n - 1, name); }
  }

  method ScanImages(up: Updater, c: Images, name: string)
      returns (cloned: Images, changes: nat, refs: seq<Ref>)
    requires Settles(up)
    ensures cloned == RewriteImages(up, c, name)
    ensures changes == 0 <==> cloned == c
    ensures refs == ImageRefs(c, |c.images|, name)
  {
    var images := c.images;
    changes, refs := 0, [];
    for k := 0 to |c.images|
      invariant ImagesDone(up, c, images, k, name)
      invariant changes == ImageChanges(up, c, k, name)
      invariant refs == ImageRefs(c, k, name)
    {
      ImageDone(up, c, images, k, name);
      var i := images[k];
      var revised, found := ReviseItem(up, i.labels, RefOfImage(c, i), i.revision, name);
      refs := refs + found;
      if revised.Some? {
        images := images[k := i.(revision := revised.value)];
        changes := changes + 1;
      }
    }
    ImagesRewritten(up, c, images, name);
    cloned := c.(images := images);
  }

  // The body of the loop over labels: an update exactly when the rewritten file is another one.
  method ScanLabel(up: Updater, config: Config, name: string) returns (update: Option<Config>, refs: seq<Ref>)
    requires Settles(up)
    ensures update == if Rewrite(up, config, name) == config then None else Some(Rewrite(up, config, name))
    ensures refs == Refs(config, name)
  {
    var cloned, changeCount := config, 0;
    refs := [];
    if config.artifacts.Some? {
      var c, n, found := ScanArtifacts(up, config.artifacts.value, name);
      cloned, changeCount, refs := cloned.(artifacts := Some(c)), n, found;
    }
    if config.images.Some? {
      var c, n, found := ScanImages(up, config.images.value, name);
      cloned, changeCount, refs := cloned.(images := Some(c)), changeCount + n, refs + found;
    }
    update := if changeCount > 0 then Some(cloned) else None;
  }

  // ---------------------------------------------------------------- all labels

  // _.uniq: first occurrences, in order.
  function Uniq<T(==,!new)>(s: seq<T>): (r: seq<T>)
    ensures forall x :: x in r <==> x in s
    ensures forall i, j | 0 <= i < j < |r| :: r[i] != r[j]
  {
    if s == [] then []
    else
      var front := Uniq(s[..|s| - 1]);
      assert s == s[..|s| - 1] + [s[|s| - 1]];
      if s[|s| - 1] in front then front else front + [s[|s| - 1]]
  }

  // LabelCriteria
  datatype Criteria = Exclude(labels: seq<string>) | Include(labels: seq<string>) | IncludeAll

  function Keep(s: seq<string>, from: seq<string>, present: bool): (r: seq<string>)
    ensures forall x :: x in r <==> x in s && (x in from) == present
  {
    if s == [] then []
    else
      assert s == [s[0]] + s[1..];
      (if (s[0] in from) == present then [s[0]] else []) + Keep(s[1..], from, present)
  }

  function Relevant(criteria: Criteria, labels: seq<string>): (r: seq<string>)
    ensures forall i, j | 0 <= i < j < |r| :: r[i] != r[j]
  {
    match criteria
    case Exclude(excludes) => Uniq(Keep(labels, excludes, false))
    case Include(includes) => Uniq(Keep(includes, labels, true))
    case IncludeAll => Uniq(labels)
  }

  predicate Wants(criteria: Criteria, name: string) {
    match criteria
    case Exclude(excludes) => name !in excludes
    case Include(includes) => name in includes
    case IncludeAll => true
  }

  // The labels a scan is made for: those there are that are not excluded, or that are asked for.
  lemma RelevantAre(criteria: Criteria, labels: seq<string>, name: string)
    ensures name in Relevant(criteria, labels) <==>
              && name in labels
              && (criteria.Exclude? ==> name !in criteria.labels) && (criteria.Include? ==> name in criteria.labels)
  {
  }

  ghost predicate ArtifactsCarry(c: Artifacts, name: string) { exists a | a in c.items :: name in LabelsOf(a.labels) }

  ghost predicate ImagesCarry(c: Images, name: string) { exists i | i in c.images :: name in LabelsOf(i.labels) }

  ghost predicate Carries(config: Config, name: string) {
    || (config.artifacts.Some? && ArtifactsCarry(config.artifacts.value, name))
    || (config.images.Some? && ImagesCarry(config.images.value, name))
  }

  datatype Update = Update(name: string, content: Config)
  datatype ScanResult = ScanResult(allDependencies: seq<Ref>, updates: seq<Update>)

  function Updates(up: Updater, config: Config, labels: seq<string>): seq<Update> {
    if labels == [] then []
    else
      var name := labels[|labels| - 1];
      var cloned := Rewrite(up, config, name);
      Updates(up, config, labels[..|labels| - 1]) + if cloned == config then [] else [Update(name, cloned)]
  }

  lemma {:induction false} UpdatesAre(up: Updater, config: Config, labels: seq<string>, u: Update)
    ensures u in Updates(up, config, labels) <==>
              u.name in labels && u.content == Rewrite(up, config, u.name) && u.content != config
  {
    if labels != [] {
      UpdatesAre(up, config, labels[..|labels| - 1], u);
      assert labels == labels[..|labels| - 1] + [labels[|labels| - 1]];
    }
  }

  ghost predicate NamesDiffer(us: seq<Update>) { forall i, j | 0 <= i < j < |us| :: us[i].name != us[j].name }

  lemma NewName(us: seq<Update>, u: Update)
    requires NamesDiffer(us) && forall i | 0 <= i < |us| :: us[i].name != u.name
    ensures NamesDiffer(us + [u])
  {
  }

  lemma {:induction false} UpdatesDiffer(up: Updater, config: Config, labels: seq<string>)
    requires forall i, j | 0 <= i < j < |labels| :: labels[i] != labels[j]
    ensures NamesDiffer(Updates(up, config, labels))
  {
    if labels != [] {
      var front, name := labels[..|labels| - 1], labels[|labels| - 1];
      var us := Updates(up, config, front);
      UpdatesDiffer(up, config, front);
      forall i | 0 <= i < |us| ensures us[i].name != name {
        UpdatesAre(up, config, front, us[i]);
        var p :| 0 <= p < |front| && front[p] == us[i].name;
        assert labels[p] == front[p];
      }
      var cloned := Rewrite(up, config, name);
      if cloned == config {
        assert Updates(up, config, labels) == us;
      } else {
        NewName(us, Update(name, cloned));
      }
    }
  }

  method AllLabels(config: Config) returns (labels: seq<string>)
    ensures forall x :: x in labels <==> Carries(config, x)
    ensures forall x :: x in labels <==>
              || (config.artifacts.Some? && exists a :: a in config.artifacts.value.items && x in LabelsOf(a.labels))
              || (config.images.Some? && exists i :: i in config.images.value.images && x in LabelsOf(i.labels))
  {
    labels := [];
    if config.artifacts.Some? {
      var items := config.artifacts.value.items;
      for k := 0 to |items|
        invariant forall x :: x in labels <==> exists j :: 0 <= j < k && x in LabelsOf(items[j].labels)
      {
        labels := labels + LabelsOf(items[k].labels);
      }
    }
    ghost var before := labels;
    assert forall x :: x in before <==> config.artifacts.Some? && ArtifactsCarry(config.artifacts.value, x);
    if config.images.Some? {
      var images := config.images.value.images;
      for k := 0 to |images|
        invariant forall x :: x in labels <==> x in before || exists j :: 0 <= j < k && x in LabelsOf(images[j].labels)
      {
        labels := labels + LabelsOf(images[k].labels);
      }
    }
  }

  // The item carries the label and refers to `ref`.
  predicate Gives(labels: Option<string>, own: Option<Ref>, name: string, ref: Ref) {
    name in LabelsOf(labels) && own == Some(ref)
  }

  lemma FoundIsGiven(labels: Option<string>, own: Option<Ref>, name: string, ref: Ref)
    ensures ref in Found(labels, own, name) <==> Gives(labels, own, name, ref)
  {
  }

  ghost predicate ArtifactsGive(c: Artifacts, n: nat, name: string, ref: Ref)
    requires n <= |c.items|
  {
    exists k :: 0 <= k < n && Gives(c.items[k].labels, RefOfArtifact(c, c.items[k]), name, ref)
  }

  ghost predicate ImagesGive(c: Images, n: nat, name: string, ref: Ref)
    requires n <= |c.images|
  {
    exists k :: 0 <= k < n && Gives(c.images[k].labels, RefOfImage(c, c.images[k]), name, ref)
  }

  ghost predicate Refers(config: Config, name: string, ref: Ref) {
    || (config.artifacts.Some? && ArtifactsGive(config.artifacts.value, |config.artifacts.value.items|, name, ref))
    || (config.images.Some? && ImagesGive(config.images.value, |config.images.value.images|, name, ref))
  }

  lemma {:induction false} ArtifactRefsAre(c: Artifacts, n: nat, name: string, ref: Ref)
    requires n <= |c.items|
    ensures ref in ArtifactRefs(c, n, name) <==> ArtifactsGive(c, n, name, ref)
  {
    if n > 0 {
      ArtifactRefsAre(c, n - 1, name, ref);
      FoundIsGiven(c.items[n - 1].labels, RefOfArtifact(c, c.items[n - 1]), name, ref);
    }
  }

  lemma {:induction false} ImageRefsAre(c: Images, n: nat, name: string, ref: Ref)
    requires n <= |c.images|
    ensures ref in ImageRefs(c, n, name) <==> ImagesGive(c, n, name, ref)
  {
    if n > 0 {
      ImageRefsAre(c, n - 1, name, ref);
      FoundIsGiven(c.images[n - 1].labels, RefOfImage(c, c.images[n - 1]), name, ref);
    }
  }

  // The references collected for a label are those of the items carrying it.
  lemma RefsAre(config: Config, name: string, ref: Ref)
    ensures ref in Refs(config, name) <==> Refers(config, name, ref)
  {
    if config.artifacts.Some? {
      ArtifactRefsAre(config.artifacts.value, |config.artifacts.value.items|, name, ref);
    }
    if config.images.Some? {
      ImageRefsAre(config.images.value, |config.images.value.images|, name, ref);
    }
  }

  function AllRefs(config: Config, labels: seq<string>): seq<Ref> {
    if labels == [] then [] else AllRefs(config, labels[..|labels| - 1]) + Refs(config, labels[|labels| - 1])
  }

  lemma {:induction false} AllRefsAre(config: Config, labels: seq<string>, ref: Ref)
    ensures ref in AllRefs(config, labels) <==> exists l :: l in labels && ref in Refs(config, l)
  {
    if labels != [] {
      AllRefsAre(config, labels[..|labels| - 1], ref);
      assert labels == labels[..|labels| - 1] + [labels[|labels| - 1]];
    }
  }

  method ScanLabels(up: Updater, config: Config, labels: seq<string>) returns (updates: seq<Update>, refs: seq<Ref>)
    requires Settles(up)
    ensures updates == Updates(up, config, labels)
    ensures refs == AllRefs(config, labels)
  {
    updates, refs := [], [];
    for k := 0 to |labels|
      invariant updates == Updates(up, config, labels[..k])
      invariant refs == AllRefs(config, labels[..k])
    {
      assert labels[..k + 1][..k] == labels[..k];
      var update, found := ScanLabel(up, config, labels[k]);
      if update.Some? { updates := updates + [Update(labels[k], update.value)]; }
      refs := refs + found;
    }
    assert labels[..|labels|] == labels;
  }

  // ---------------------------------------------------------------- what updates do

  // Two files that differ at most in revisions of items carrying the label.
  ghost predicate OnlyRevisions(a: Config, b: Config, name: string) {
    && b == a.(artifacts := b.artifacts, images := b.images)
    && a.artifacts.Some? == b.artifacts.Some? && a.images.Some? == b.images.Some?
    && (a.artifacts.Some? ==> OnlyArtifactRevisions(a.artifacts.value, b.artifacts.value, name))
    && (a.images.Some? ==> OnlyImageRevisions(a.images.value, b.images.value, name))
  }

  ghost predicate OnlyArtifactRevisions(a: Artifacts, b: Artifacts, name: string) {
    && b == a.(items := b.items) && |a.items| == |b.items|
    && forall k | 0 <= k < |a.items| ::
         && b.items[k] == a.items[k].(revision := b.items[k].revision)
         && (name !in LabelsOf(a.items[k].labels) ==> b.items[k] == a.items[k])
  }

  ghost predicate OnlyImageRevisions(a: Images, b: Images, name: string) {
    && b == a.(images := b.images) && |a.images| == |b.images|
    && forall k | 0 <= k < |a.images| ::
         && b.images[k] == a.images[k].(revision := b.images[k].revision)
         && (name !in LabelsOf(a.images[k].labels) ==> b.images[k] == a.images[k])
  }

  lemma ChangesOnlyRevisions(up: Updater, config: Config, name: string)
    ensures OnlyRevisions(config, Rewrite(up, config, name), name)
  {
  }

  // Rewriting twice, for any two labels, is the same in either order, and a second time for the
  // same label changes nothing.
  lemma ArtifactsCommute(up: Updater, c: Artifacts, l: string, m: string)
    requires Settles(up)
    ensures RewriteArtifacts(up, RewriteArtifacts(up, c, l), m) == RewriteArtifacts(up, RewriteArtifacts(up, c, m), l)
    ensures RewriteArtifacts(up, RewriteArtifacts(up, c, l), l) == RewriteArtifacts(up, c, l)
  {
    var a, b := RewriteArtifacts(up, c, l), RewriteArtifacts(up, c, m);
    forall k | 0 <= k < |c.items|
      ensures RewriteArtifact(up, a, a.items[k], m) == RewriteArtifact(up, b, b.items[k], l)
      ensures RewriteArtifact(up, a, a.items[k], l) == a.items[k]
    {
    }
    assert RewriteArtifacts(up, a, m).items == RewriteArtifacts(up, b, l).items;
    assert RewriteArtifacts(up, a, l).items == a.items;
  }

  lemma ImagesCommute(up: Updater, c: Images, l: string, m: string)
    requires Settles(up)
    ensures RewriteImages(up, RewriteImages(up, c, l), m) == RewriteImages(up, RewriteImages(up, c, m), l)
    ensures RewriteImages(up, RewriteImages(up, c, l), l) == RewriteImages(up, c, l)
  {
    var a, b := RewriteImages(up, c, l), RewriteImages(up, c, m);
    forall k | 0 <= k < |c.images|
      ensures RewriteImage(up, a, a.images[k], m) == RewriteImage(up, b, b.images[k], l)
      ensures RewriteImage(up, a, a.images[k], l) == a.images[k]
    {
    }
    assert RewriteImages(up, a, m).images == RewriteImages(up, b, l).images;
    assert RewriteImages(up, a, l).images == a.images;
  }

  lemma RewritesCommute(up: Updater, config: Config, l: string, m: string)
    requires Settles(up)
    ensures Rewrite(up, Rewrite(up, config, l), m) == Rewrite(up, Rewrite(up, config, m), l)
    ensures Rewrite(up, Rewrite(up, config, l), l) == Rewrite(up, config, l)
  {
    if config.artifacts.Some? { ArtifactsCommute(up, config.artifacts.value, l, m); }
    if config.images.Some? { ImagesCommute(up, config.images.value, l, m); }
  }

  // The file after the updates for several labels, one after the other.
  function Applied(up: Updater, config: Config, labels: seq<string>): Config {
    if labels == [] then config else Rewrite(up, Applied(up, config, labels[..|labels| - 1]), labels[|labels| - 1])
  }

  lemma {:induction false} AppliedSettles(up: Updater, config: Config, labels: seq<string>, l: string)
    requires Settles(up) && l in labels
    ensures Rewrite(up, Applied(up, config, labels), l) == Applied(up, config, labels)
  {
    var front, last := labels[..|labels| - 1], labels[|labels| - 1];
    var before := Applied(up, config, front);
    RewritesCommute(up, before, last, l);
    if l != last {
      assert labels == front + [last];
      AppliedSettles(up, config, front, l);
    }
  }
}
