/**
 * `MetaAppContext` (action/src/context/metaAppContext.ts): turns the variants
 * of one application into the entries of the Docker build matrix.
 *
 * The environment (`ghContext.repo`, the current branch, the registry user
 * variables and `isAct`) is the value `env`; `pathExists` is the oracle
 * `pathExists`. `path.join` is concatenation with `/` of relative, normalised
 * parts.
 */
module MetaApp {
  import opened Options
  import opened Strings
  import opened Assoc
  import opened Schema
  import Template
  import Utils

  /** What `buildMatrixData` reads from the environment. */
  datatype BuildEnv = BuildEnv(
    owner: string, repo: string, branch: string,
    dockerUser: Option<string>,       // DOCKERHUB_USERNAME
    ghcrUser: Option<string>,         // GHCR_USERNAME
    acrRegistry: Option<string>,      // ALI_ACR_REGISTRY
    acrUser: Option<string>,          // ALI_ACR_USERNAME
    isAct: bool)

  datatype Metadata = Metadata(images: seq<string>, imageLines: string, tags: seq<string>, tagLines: string,
                               labels: seq<string>, labelLines: string)
  datatype Build = Build(platforms: seq<string>, platformLines: string, file: string, context: string, push: bool)
  datatype Readme = Readme(push: bool, path: string, repo: string)

  /** One entry of the build matrix. */
  datatype MatrixEntry = MatrixEntry(
    name: string, variant: string, metadata: Metadata, build: Build, readme: Readme,
    pushDocker: bool, pushGhcr: bool, pushAli: bool, hasPreScript: bool, hasPostScript: bool)

  /** A template literal's rendering of an optional string. */
  function Render(o: Option<string>): string { if o.Some? then o.value else "undefined" }

  function JoinPath(context: string, p: string): string { context + "/" + p }

  /** `variant.checkver.type` */
  function Kind(v: ImageVariant): Option<string>
    requires v.checkver.Some?
  {
    v.checkver.value.kind
  }

  /** The two skip conditions: a checked variant without version or SHA, and a manual one without them. */
  predicate MissingVersion(v: ImageVariant, isAct: bool)
    requires v.checkver.Some?
  {
    var isManual := Kind(v) == Some("manual");
    var cord1 := Kind(v) in {Some("version"), Some("tag"), Some("sha")} && (!Truthy(v.version) || !Truthy(v.sha));
    var cord2 := isManual && (if isAct then !Truthy(v.version) else !Truthy(v.version) || !Truthy(v.sha));
    cord1 || cord2
  }

  /** `variant.docker?.file || (isLatest ? 'Dockerfile' : 'Dockerfile.<name>')` */
  function DockerfileName(variantName: string, v: ImageVariant): string
  {
    if v.docker.Some? && Truthy(v.docker.value.file) then v.docker.value.file.value
    else if variantName == "latest" then "Dockerfile"
    else "Dockerfile." + variantName
  }

  function DefaultImages(env: BuildEnv): seq<string>
  {
    (if Truthy(env.dockerUser) then [env.dockerUser.value + "/{{name}}"] else []) +
    (if Truthy(env.ghcrUser) then ["ghcr.io/" + env.ghcrUser.value + "/{{name}}"] else []) +
    (if Truthy(env.acrRegistry) && Truthy(env.acrUser) then [env.acrRegistry.value + "/" + env.acrUser.value + "/{{name}}"] else [])
  }

  /** `variant.docker?.images || defaultImages`; an empty list is kept. */
  function ImageTemplates(v: ImageVariant, env: BuildEnv): seq<string>
  {
    if v.docker.Some? && v.docker.value.images.Some? then v.docker.value.images.value else DefaultImages(env)
  }

  function Images(name: string, v: ImageVariant, env: BuildEnv): seq<string>
  {
    var content := Join(ImageTemplates(v, env), "\n");
    Distinct(Split(Template.Resolve(content, [("name", [Some(name)])], Template.Unescaping), '\n'))
  }

  const RawTag := "type=raw,value="

  function DefaultTags(variantName: string): seq<string>
  {
    [RawTag + variantName, RawTag + Template.DoubleBraceForm("version")]
  }

  function TagTemplates(variantName: string, v: ImageVariant): seq<string>
  {
    if v.docker.Some? && v.docker.value.tags.Some? then v.docker.value.tags.value else DefaultTags(variantName)
  }

  /** The semver parts, parsed only when the version contains a `.`. */
  function VersionParts(version: Option<string>): Option<Utils.LooseVersion>
  {
    if Truthy(version) && '.' in version.value then Utils.ParseVersionLoose(version.value) else None
  }

  /** The placeholders of the tag templates, in their record order. */
  function TagData(version: Option<string>, sha: Option<string>): Template.PlaceholderData
  {
    var parts := VersionParts(version);
    [("version", [version]),
     ("sha", [if sha.Some? then Some(Take(sha.value, 7)) else None]),
     ("fullSha", [sha]),
     ("major", [if parts.Some? then Some(parts.value.major) else None]),
     ("minor", [if parts.Some? then Some(parts.value.minor) else None]),
     ("patch", [if parts.Some? then Some(parts.value.patch) else None])]
  }

  function Tags(variantName: string, v: ImageVariant): seq<string>
  {
    var content := Join(TagTemplates(variantName, v), "\n");
    Distinct(Split(Template.Resolve(content, TagData(v.version, v.sha), Template.Unescaping), '\n'))
  }

  /** The `source`/`url` label: the detected repository, or the tree URL of a manual app, or nothing. */
  function SourceUrl(context: string, v: ImageVariant, env: BuildEnv): Option<string>
    requires v.checkver.Some?
  {
    if Truthy(v.checkver.value.repo) then Some(Utils.DetectRepo(v.checkver.value.repo.value))
    else if Kind(v) == Some("manual") then
      Some("https://github.com/" + env.owner + "/" + env.repo + "/tree/" + env.branch + "/" + context)
    else None
  }

  function Or(o: Option<string>, d: string): string { if Truthy(o) then o.value else d }

  function DefaultLabels(meta: Meta, v: ImageVariant, url: Option<string>): seq<(string, Option<string>)>
  {
    [("description", Some(Or(meta.description, ""))),
     ("licenses", Some(Or(meta.license, ""))),
     ("revision", v.sha),
     ("source", url),
     ("title", Some(Or(meta.title, meta.name))),
     ("url", url),
     ("version", v.version)]
  }

  function UserLabels(v: ImageVariant): (r: seq<(string, Option<string>)>)
    ensures |r| == (if v.docker.Some? && v.docker.value.labels.Some? then |v.docker.value.labels.value| else 0)
    ensures v.docker.Some? && v.docker.value.labels.Some? ==>
      forall i :: 0 <= i < |r| ==> r[i] == (v.docker.value.labels.value[i].0, Some(v.docker.value.labels.value[i].1))
  {
    if v.docker.Some? && v.docker.value.labels.Some? then SomeValues(v.docker.value.labels.value) else []
  }

  function SomeValues(m: seq<(string, string)>): (r: seq<(string, Option<string>)>)
    ensures |r| == |m| && forall i :: 0 <= i < |m| ==> r[i] == (m[i].0, Some(m[i].1))
  {
    if |m| == 0 then [] else [(m[0].0, Some(m[0].1))] + SomeValues(m[1..])
  }

  /** The defaults overridden by the user's `docker.labels`. */
  function Labels(meta: Meta, v: ImageVariant, url: Option<string>): seq<(string, Option<string>)>
  {
    PutAll(DefaultLabels(meta, v, url), UserLabels(v))
  }

  /** The namespace of the OCI image annotations the labels are written under. */
  const LabelPrefix := "org.opencontainers.image."

  /** One `org.opencontainers.image.<k>=<v>` line per label. */
  function LabelLines(labels: seq<(string, Option<string>)>): (r: seq<string>)
    ensures |r| == |labels|
    ensures forall i :: 0 <= i < |labels| ==> r[i] == LabelPrefix + labels[i].0 + "=" + Render(labels[i].1)
  {
    if |labels| == 0 then []
    else [LabelPrefix + labels[0].0 + "=" + Render(labels[0].1)] + LabelLines(labels[1..])
  }

  /** `/^registry\..*?\.aliyuncs\.com/`: `.` does not match a line terminator. */
  predicate AliyunImage(im: string)
  {
    StartsWith(im, "registry.") &&
    exists j :: 9 <= j <= |im| && OccursAt(im, ".aliyuncs.com", j) && NoLineTerminator(im[9..j])
  }

  predicate SomeStartsWith(images: seq<string>, p: string)
  {
    exists i :: 0 <= i < |images| && StartsWith(images[i], p)
  }

  predicate SomeAliyun(images: seq<string>)
  {
    exists i :: 0 <= i < |images| && AliyunImage(images[i])
  }

  /** `(isTest || isAct) ? false : (variant.docker?.push ?? true)` */
  predicate ShouldPush(context: string, v: ImageVariant, isAct: bool)
  {
    if StartsWith(context, "test/") || isAct then false
    else if v.docker.Some? && v.docker.value.push.Some? then v.docker.value.push.value
    else true
  }

  function Platforms(v: ImageVariant): seq<string>
  {
    if v.docker.Some? && v.docker.value.platforms.Some? then v.docker.value.platforms.value else ["linux/amd64", "linux/arm64"]
  }

  function ScriptName(stage: string, variantName: string): string
  {
    if variantName == "latest" then stage + ".sh" else stage + "." + variantName + ".sh"
  }

  /** The body of the loop of `buildMatrixData` for one variant; `None` where it `continue`s. */
  function Entry(context: string, meta: Meta, variantName: string, v: ImageVariant, env: BuildEnv,
                 pathExists: string -> bool): Option<MatrixEntry>
    requires v.checkver.Some?
  {
    if MissingVersion(v, env.isAct) then None
    else
      var dockerfile := JoinPath(context, DockerfileName(variantName, v));
      if !pathExists(dockerfile) then None
      else
        var images := Images(meta.name, v, env);
        var tags := Tags(variantName, v);
        var labels := LabelLines(Labels(meta, v, SourceUrl(context, v, env)));
        var pushDocker := Truthy(env.dockerUser) && SomeStartsWith(images, env.dockerUser.value);
        var pushGhcr := Truthy(env.ghcrUser) && SomeStartsWith(images, "ghcr.io/");
        var pushAli := Truthy(env.acrRegistry) && Truthy(env.acrUser) && SomeAliyun(images);
        var platforms := Platforms(v);
        var push := ShouldPush(context, v, env.isAct);
        var readmePath := JoinPath(context, "README.md");
        Some(MatrixEntry(
          meta.name, variantName,
          Metadata(images, Join(images, "\n"), tags, Join(tags, "\n"), labels, Join(labels, "\n")),
          Build(platforms, Join(platforms, "\n"), dockerfile, context, push),
          Readme(push && pushDocker && pathExists(readmePath), readmePath, Render(env.dockerUser) + "/" + meta.name),
          pushDocker, pushGhcr, pushAli,
          pathExists(JoinPath(context, ScriptName("pre", variantName))),
          pathExists(JoinPath(context, ScriptName("post", variantName)))))
  }

  predicate AllChecked(variants: seq<(string, ImageVariant)>)
  {
    forall i :: 0 <= i < |variants| ==> variants[i].1.checkver.Some?
  }

  /** The entries produced for the variants, in order. */
  function Entries(context: string, meta: Meta, variants: seq<(string, ImageVariant)>, env: BuildEnv,
                   pathExists: string -> bool): seq<MatrixEntry>
    requires AllChecked(variants)
    decreases |variants|
  {
    if |variants| == 0 then []
    else
      var (name, v) := variants[|variants| - 1];
      var e := Entry(context, meta, name, v, env, pathExists);
      Entries(context, meta, variants[..|variants| - 1], env, pathExists) + (if e.Some? then [e.value] else [])
  }

  /** What `getChangedVariants` collects: the listed names present in `variants`, with their variants. */
  function ChangedVariants(variants: seq<(string, ImageVariant)>, names: seq<string>): seq<(string, ImageVariant)>
    decreases |names|
  {
    if |names| == 0 then []
    else
      var acc := ChangedVariants(variants, names[..|names| - 1]);
      var n := names[|names| - 1];
      var v := Get(variants, n);
      if v.Some? then Put(acc, n, v.value) else acc
  }

  class MetaAppContext {
    const context: string
    const name: string
    const meta: Meta

    constructor(context: string, meta: Meta)
      ensures this.context == context && this.meta == meta && name == meta.name
    {
      this.context := context;
      this.meta := meta;
      this.name := meta.name;
    }

    /** `buildMatrixData`: one entry per variant that is not skipped, or `None` when there is none. */
    method BuildMatrixData(variants: seq<(string, ImageVariant)>, env: BuildEnv, pathExists: string -> bool)
      returns (r: Option<seq<MatrixEntry>>)
      requires AllChecked(variants)
      ensures r.None? <==> |Entries(context, meta, variants, env, pathExists)| == 0
      ensures r.Some? ==> r.value == Entries(context, meta, variants, env, pathExists)
    {
      var matrix: seq<MatrixEntry> := [];
      var i := 0;
      while i < |variants|
        invariant 0 <= i <= |variants|
        invariant AllChecked(variants[..i])
        invariant matrix == Entries(context, meta, variants[..i], env, pathExists)
      {
        var (variantName, variant) := variants[i];
        assert variants[..i + 1][..i] == variants[..i];
        assert variants[..i + 1][i] == variants[i];
        var entry := Entry(context, meta, variantName, variant, env, pathExists);
        if entry.Some? {
          matrix := matrix + [entry.value];
        }
        i := i + 1;
      }
      assert variants[..|variants|] == variants;
      r := if |matrix| > 0 then Some(matrix) else None;
    }

    /** `getChangedVariants`: nothing for an empty list, else the listed variants that exist. */
    method GetChangedVariants(arr: Option<seq<string>>) returns (r: Option<seq<(string, ImageVariant)>>)
      ensures r.None? <==> arr.None? || |arr.value| == 0
      ensures r.Some? ==> r.value == ChangedVariants(meta.variants, arr.value)
    {
      if arr.None? || |arr.value| == 0 {
        return None;
      }
      var variants: seq<(string, ImageVariant)> := [];
      var i := 0;
      while i < |arr.value|
        invariant 0 <= i <= |arr.value|
        invariant variants == ChangedVariants(meta.variants, arr.value[..i])
      {
        assert arr.value[..i + 1][..i] == arr.value[..i];
        var v := Get(meta.variants, arr.value[i]);
        if v.Some? {
          variants := Put(variants, arr.value[i], v.value);
        }
        i := i + 1;
      }
      assert arr.value[..|arr.value|] == arr.value;
      r := Some(variants);
    }
  }

  // ------------------------------------------------------------------ properties

  /** A variant is skipped exactly when it lacks a version or SHA its type needs, or its Dockerfile is missing. */
  lemma EntrySkipRules(context: string, meta: Meta, variantName: string, v: ImageVariant, env: BuildEnv, pathExists: string -> bool)
    requires v.checkver.Some?
    ensures var kind := v.checkver.value.kind;
      Entry(context, meta, variantName, v, env, pathExists).None? <==>
        (kind in {Some("version"), Some("tag"), Some("sha")} && (!Truthy(v.version) || !Truthy(v.sha))) ||
        (kind == Some("manual") && (!Truthy(v.version) || (!env.isAct && !Truthy(v.sha)))) ||
        !pathExists(JoinPath(context, DockerfileName(variantName, v)))
  {
  }

  /** The Dockerfile is `docker.file`, else `Dockerfile` for `latest`, else `Dockerfile.<variant>`. */
  lemma DockerfileChoice(variantName: string, v: ImageVariant)
    ensures v.docker.Some? && Truthy(v.docker.value.file) ==> DockerfileName(variantName, v) == v.docker.value.file.value
    ensures !(v.docker.Some? && Truthy(v.docker.value.file)) ==>
      DockerfileName(variantName, v) == (if variantName == "latest" then "Dockerfile" else "Dockerfile." + variantName)
  {
  }

  /** The build part of an entry, and when the image and the README are pushed. */
  lemma EntryBuild(context: string, meta: Meta, variantName: string, v: ImageVariant, env: BuildEnv, pathExists: string -> bool)
    requires v.checkver.Some?
    ensures var e := Entry(context, meta, variantName, v, env, pathExists);
      e.Some? ==>
        e.value.name == meta.name && e.value.variant == variantName &&
        e.value.build.file == JoinPath(context, DockerfileName(variantName, v)) &&
        e.value.build.context == context &&
        (e.value.build.push <==>
          !StartsWith(context, "test/") && !env.isAct && !(v.docker.Some? && v.docker.value.push == Some(false))) &&
        (e.value.readme.push <==> e.value.build.push && e.value.pushDocker && pathExists(JoinPath(context, "README.md"))) &&
        (e.value.pushDocker <==>
          Truthy(env.dockerUser) && exists i :: 0 <= i < |e.value.metadata.images| && StartsWith(e.value.metadata.images[i], env.dockerUser.value)) &&
        (e.value.pushGhcr <==>
          Truthy(env.ghcrUser) && exists i :: 0 <= i < |e.value.metadata.images| && StartsWith(e.value.metadata.images[i], "ghcr.io/")) &&
        (!(v.docker.Some? && v.docker.value.platforms.Some?) ==> e.value.build.platforms == ["linux/amd64", "linux/arm64"])
  {
  }

  /** Images and tags hold no duplicates, and every one comes from a line of the resolved templates. */
  lemma EntryDistinct(context: string, meta: Meta, variantName: string, v: ImageVariant, env: BuildEnv, pathExists: string -> bool)
    requires v.checkver.Some?
    ensures var e := Entry(context, meta, variantName, v, env, pathExists);
      e.Some? ==>
        var lines := Split(Template.Resolve(Join(TagTemplates(variantName, v), "\n"), TagData(v.version, v.sha), Template.Unescaping), '\n');
        (forall i, j :: 0 <= i < j < |e.value.metadata.tags| ==> e.value.metadata.tags[i] != e.value.metadata.tags[j]) &&
        (forall i :: 0 <= i < |e.value.metadata.tags| ==> e.value.metadata.tags[i] in lines) &&
        (forall i :: 0 <= i < |lines| ==> lines[i] in e.value.metadata.tags) &&
        (forall i, j :: 0 <= i < j < |e.value.metadata.images| ==> e.value.metadata.images[i] != e.value.metadata.images[j])
  {
  }

  /** `major`, `minor` and `patch` are computed only for a version containing a `.`. */
  lemma VersionPartsOnlyWithDot(version: Option<string>)
    ensures !(version.Some? && '.' in version.value) ==> VersionParts(version).None?
    ensures version.Some? && '.' in version.value ==> VersionParts(version) == Utils.ParseVersionLoose(version.value)
  {
  }

  lemma ConcatAssoc(x: string, y: string, z: string)
    ensures (x + y) + z == x + (y + z)
  {
  }

  /** Clean text without backslashes is left alone by entries that carry at most a new value. */
  lemma {:induction false} ResolveCleanStable(content: string, data: Template.PlaceholderData)
    requires Template.Clean(content) && '\\' !in content
    requires forall i :: 0 <= i < |data| ==> |data[i].1| <= 1
    ensures Template.Resolve(content, data, Template.Unescaping) == content
    decreases |data|
  {
    if |data| > 0 {
      if |data[0].1| == 1 {
        var v := data[0].1[0].GetOr("");
        Template.ReplacePlaceholdersClean(content, data[0].0, v);
        Template.UnescapeNoBackslash(content);
      }
      ResolveCleanStable(content, data[1..]);
    }
  }

  /** The default tag templates joined: clean text, then the `{{version}}` placeholder. */
  lemma DefaultTagsContent(variantName: string)
    ensures Join(DefaultTags(variantName), "\n") == (RawTag + variantName + ['\n'] + RawTag) + Template.DoubleBraceForm("version")
  {
    var tail := RawTag + Template.DoubleBraceForm("version");
    assert DefaultTags(variantName)[1..] == [tail];
    assert Join([tail], "\n") == tail;
    ConcatAssoc(RawTag + variantName + ['\n'], RawTag, Template.DoubleBraceForm("version"));
  }

  /** Resolving `a{{version}}` for clean `a`: the version takes the placeholder's place, the later keys change nothing. */
  lemma ResolveVersionOnly(a: string, ver: Option<string>, rest: Template.PlaceholderData)
    requires Template.Clean(a) && '\\' !in a
    requires ver.Some? && Template.Clean(ver.value) && '\\' !in ver.value
    requires forall i :: 0 <= i < |rest| ==> |rest[i].1| <= 1
    ensures Template.Resolve(a + Template.DoubleBraceForm("version"), [("version", [ver])] + rest, Template.Unescaping) == a + ver.value
  {
    var data := [("version", [ver])] + rest;
    var content := a + Template.DoubleBraceForm("version");
    assert content == a + Template.DoubleBraceForm("version") + "";
    Template.ReplacePlaceholdersAt(a, Template.DoubleBraceForm("version"), "", "version", ver.value);
    var replaced := a + ver.value;
    assert ver.GetOr("") == ver.value;
    assert Template.ReplacePlaceholders(content, "version", ver.value) == replaced;
    Template.UnescapeNoBackslash(replaced);
    assert Template.ApplyEntry(content, "version", [ver], Template.Unescaping) == replaced;
    assert data[1..] == rest;
    ResolveCleanStable(replaced, rest);
  }

  /**
   * With the default tag templates, a clean variant name and a clean version,
   * the tags are `type=raw,value=<variant>` and `type=raw,value=<version>`
   * (once, when they coincide).
   */
  lemma DefaultTagsResolved(variantName: string, v: ImageVariant)
    requires !(v.docker.Some? && v.docker.value.tags.Some?)
    requires v.version.Some?
    requires Template.Clean(variantName) && '\\' !in variantName && '\n' !in variantName
    requires Template.Clean(v.version.value) && '\\' !in v.version.value && '\n' !in v.version.value
    ensures Tags(variantName, v) == Distinct([RawTag + variantName, RawTag + v.version.value])
  {
    var ver := v.version.value;
    var first := RawTag + variantName;
    var a := first + ['\n'] + RawTag;
    DefaultTagsContent(variantName);
    var data := TagData(v.version, v.sha);
    assert data == [("version", [v.version])] + data[1..];
    ResolveVersionOnly(a, v.version, data[1..]);
    var second := RawTag + ver;
    ConcatAssoc(first + ['\n'], RawTag, ver);
    SplitAfterPiece(first, '\n', second);
    SplitNoSep(second, '\n');
  }

  /** A user label overrides the default of the same key; the seven default keys always come first. */
  lemma LabelsOverride(meta: Meta, v: ImageVariant, url: Option<string>, k: string)
    requires DistinctKeys(UserLabels(v))
    ensures Get(Labels(meta, v, url), k) ==
      if HasKey(UserLabels(v), k) then Get(UserLabels(v), k) else Get(DefaultLabels(meta, v, url), k)
    ensures |Labels(meta, v, url)| >= 7 &&
      Keys(Labels(meta, v, url))[..7] == ["description", "licenses", "revision", "source", "title", "url", "version"]
  {
    PutAllGet(DefaultLabels(meta, v, url), UserLabels(v), k);
    PutAllKeys(DefaultLabels(meta, v, url), UserLabels(v));
  }

  /** Without user labels, the label lines are the seven defaults in order. */
  lemma DefaultLabelLines(meta: Meta, v: ImageVariant, url: Option<string>)
    requires !(v.docker.Some? && v.docker.value.labels.Some?)
    ensures var lines := LabelLines(Labels(meta, v, url));
      |lines| == 7 &&
      lines[0] == LabelPrefix + "description" + "=" + Or(meta.description, "") &&
      lines[1] == LabelPrefix + "licenses" + "=" + Or(meta.license, "") &&
      lines[2] == LabelPrefix + "revision" + "=" + Render(v.sha) &&
      lines[3] == LabelPrefix + "source" + "=" + Render(url) &&
      lines[4] == LabelPrefix + "title" + "=" + Or(meta.title, meta.name) &&
      lines[5] == LabelPrefix + "url" + "=" + Render(url) &&
      lines[6] == LabelPrefix + "version" + "=" + Render(v.version)
  {
    LabelsWithoutUserLabels(meta, v, url);
    DefaultLabelLinesOf(DefaultLabels(meta, v, url), meta, v, url);
  }

  lemma LabelsWithoutUserLabels(meta: Meta, v: ImageVariant, url: Option<string>)
    requires !(v.docker.Some? && v.docker.value.labels.Some?)
    ensures Labels(meta, v, url) == DefaultLabels(meta, v, url)
  {
    assert UserLabels(v) == [];
  }

  lemma DefaultLabelLinesOf(labels: seq<(string, Option<string>)>, meta: Meta, v: ImageVariant, url: Option<string>)
    requires labels == DefaultLabels(meta, v, url)
    ensures var lines := LabelLines(labels);
      |lines| == 7 &&
      lines[0] == LabelPrefix + "description" + "=" + Or(meta.description, "") &&
      lines[1] == LabelPrefix + "licenses" + "=" + Or(meta.license, "") &&
      lines[2] == LabelPrefix + "revision" + "=" + Render(v.sha) &&
      lines[3] == LabelPrefix + "source" + "=" + Render(url) &&
      lines[4] == LabelPrefix + "title" + "=" + Or(meta.title, meta.name) &&
      lines[5] == LabelPrefix + "url" + "=" + Render(url) &&
      lines[6] == LabelPrefix + "version" + "=" + Render(v.version)
  {
  }

  /** The changed variants are the listed names that exist, each with its own variant. */
  lemma {:induction false} ChangedVariantsLookup(variants: seq<(string, ImageVariant)>, names: seq<string>, k: string)
    ensures Get(ChangedVariants(variants, names), k) == if k in names then Get(variants, k) else None
    decreases |names|
  {
    if |names| > 0 {
      var init := names[..|names| - 1];
      var n := names[|names| - 1];
      ChangedVariantsLookup(variants, init, k);
      assert names == init + [n];
      var v := Get(variants, n);
      if v.Some? {
        PutGet(ChangedVariants(variants, init), n, v.value, k);
      }
    }
  }
}
