/**
 * `VariantContext` (action/src/variant.ts): resolves the upstream version of
 * one image variant by tag, HEAD SHA or version file, and decides whether it
 * needs an update.
 *
 * The cloned repository is seen through `Upstream`; `semver.valid`, the
 * user-supplied regular expressions and `JSON.parse` through `Matchers`.
 */
module Variants {
  import opened Options
  import opened Strings
  import opened Schema
  import Json
  import Utils
  import Git

  /** What the cloned repository answers; `None` is a failing command (which throws). */
  datatype Upstream = Upstream(
    tagList: Option<string>,                   // stdout of `git tag --sort=-creatordate`
    head: Option<string>,                      // stdout of `git log -1 --format=%H`
    tagCommit: string -> Option<string>,       // stdout of `git rev-list -n 1 <tag>`
    pickaxe: (string, string) -> Option<string>, // stdout of `git log -G"<term>" --format=%H -n 1 -- <file>`
    readFile: string -> Option<string>,        // file contents, `None` when unreadable
    query: Git.Query -> Option<string>)        // the queries of `collectCommitInfo`

  /** The foreign matchers the resolver calls. */
  datatype Matchers = Matchers(
    semverValid: string -> Option<string>,     // `semver.valid`: the normalised version or null
    test: (string, string) -> bool,            // `new RegExp(pattern).test(text)`
    capture: (string, string) -> Option<string>, // group 1 of `text.match(new RegExp(pattern))`
    parseJson: string -> Option<Json.Value>)   // `JSON.parse`, `None` when it throws

  /** A strategy's answer. */
  datatype Resolved = Resolved(version: string, sha: string)

  /** `CheckVariantResult` from action/src/types/index.ts. */
  datatype CheckResult = CheckResult(
    version: string,
    sha: string,
    commitInfo: Option<Git.CommitInfo>,
    variantName: string,
    needsUpdate: bool,
    variant: ImageVariant,
    context: string)

  /** `xs.find(p)` */
  function FindFirst(xs: seq<string>, p: string -> bool): (r: Option<string>)
    ensures r.None? <==> forall k :: 0 <= k < |xs| ==> !p(xs[k])
  {
    if |xs| == 0 then None
    else if p(xs[0]) then Some(xs[0])
    else FindFirst(xs[1..], p)
  }

  /** What `find` returns is the first element satisfying `p`. */
  lemma {:induction false} FindFirstIndex(xs: seq<string>, p: string -> bool)
    requires FindFirst(xs, p).Some?
    ensures exists k :: 0 <= k < |xs| && xs[k] == FindFirst(xs, p).value && p(xs[k]) && forall j :: 0 <= j < k ==> !p(xs[j])
  {
    if !p(xs[0]) {
      var r := FindFirst(xs[1..], p);
      FindFirstIndex(xs[1..], p);
      var k :| 0 <= k < |xs[1..]| && xs[1..][k] == r.value && p(xs[1..][k]) && forall j :: 0 <= j < k ==> !p(xs[1..][j]);
      forall j | 1 <= j < k + 1 ensures !p(xs[j]) { assert xs[j] == xs[1..][j - 1]; }
      assert xs[k + 1] == r.value && p(xs[k + 1]);
    } else {
      assert xs[0] == FindFirst(xs, p).value;
    }
  }

  /** The tag a variant's `checkver` selects: the first semver-valid tag, or the first one the pattern matches. */
  function SelectTag(tags: seq<string>, cv: VersionCheck, m: Matchers): Option<string>
  {
    if !Truthy(cv.tagPattern) then FindFirst(tags, t => Truthy(m.semverValid(t)))
    else FindFirst(tags, t => m.test(cv.tagPattern.value, t))
  }

  /** `getVersionFromTag` */
  function VersionFromTag(up: Upstream, cv: VersionCheck, m: Matchers): Option<Resolved>
  {
    if up.tagList.None? then None
    else VersionFromTags(Git.GetAllTags(up.tagList.value), up, cv, m)
  }

  /** `getVersionFromTag` once the tag list is read. */
  function VersionFromTags(tags: seq<string>, up: Upstream, cv: VersionCheck, m: Matchers): Option<Resolved>
  {
    if |tags| == 0 then None
    else
      var tag := SelectTag(tags, cv, m);
      if tag.None? then None
      else
        var clean := Trim(tag.value);
        var commit := up.tagCommit(clean);
        if commit.None? then None
        else Some(Resolved(Utils.NormalizeVersion(clean), Trim(commit.value)))
  }

  /** `getVersionFromSha` */
  function VersionFromSha(up: Upstream): Option<Resolved>
  {
    if up.head.None? then None
    else
      var clean := Trim(up.head.value);
      Some(Resolved(Take(clean, 7), clean))
  }

  /** `extractVersionFromPackageJson`: the `version` field, optionally narrowed by the regex. */
  function VersionFromPackageJson(up: Upstream, file: string, regex: Option<string>, m: Matchers): Option<string>
  {
    var content := up.readFile(file);
    if !Truthy(content) then None
    else
      var json := m.parseJson(content.value);
      if json.None? then None
      else
        match Json.Lookup(json.value, "version")
        case Str(v) =>
          if v == "" then None
          else if Truthy(regex) then
            var c := m.capture(regex.value, v);
            if Truthy(c) then Some(Trim(c.value)) else None
          else Some(v)
        case _ => None
  }

  /** `extractVersionFromFile`: group 1 of the regex on the file, trimmed. */
  function VersionFromRegex(up: Upstream, file: string, regex: string, m: Matchers): Option<string>
  {
    var content := up.readFile(file);
    if !Truthy(content) then None
    else
      var c := m.capture(regex, content.value);
      if Truthy(c) then Some(Trim(c.value)) else None
  }

  /** The version text `getVersionFromFile` extracts, before it is validated. */
  function ExtractedVersion(up: Upstream, file: string, cv: VersionCheck, m: Matchers): Option<string>
  {
    if EndsWith(file, "package.json") then VersionFromPackageJson(up, file, cv.regex, m)
    else if Truthy(cv.regex) then VersionFromRegex(up, file, cv.regex.value, m)
    else
      var content := up.readFile(file);
      if content.Some? then Some(Trim(content.value)) else None
  }

  /** The search term of `getFileSha`, which is hard-coded. */
  const PickaxeTerm := "version"

  /** `getVersionFromFile` */
  function VersionFromFile(up: Upstream, cv: VersionCheck, m: Matchers): Option<Resolved>
  {
    if !Truthy(cv.file) then None
    else
      var raw := ExtractedVersion(up, cv.file.value, cv, m);
      if !Truthy(raw) then None
      else
        var valid := m.semverValid(raw.value);
        if !Truthy(valid) then None
        else
          var sha := up.pickaxe(PickaxeTerm, cv.file.value);
          if sha.None? then None
          else Some(Resolved(Utils.NormalizeVersion(valid.value), Trim(sha.value)))
  }

  /** `checkVersionByType`: only `tag`, `sha` and `version` are dispatched; anything else throws. */
  function VersionByType(kind: Option<string>, up: Upstream, cv: VersionCheck, m: Matchers): Option<Resolved>
  {
    if kind == Some("tag") then VersionFromTag(up, cv, m)
    else if kind == Some("sha") then VersionFromSha(up)
    else if kind == Some("version") then VersionFromFile(up, cv, m)
    else None
  }

  /** `version !== result.version || sha !== result.sha` */
  predicate NeedsUpdate(v: ImageVariant, r: Resolved)
  {
    v.version != Some(r.version) || v.sha != Some(r.sha)
  }

  /** The constructor's in-place rewrite of `checkver.repo` to a full URL. */
  function WithFullRepo(v: ImageVariant): (r: ImageVariant)
  {
    if v.checkver.Some? && Truthy(v.checkver.value.repo) then
      v.(checkver := Some(v.checkver.value.(repo := Some(Utils.DetectRepo(v.checkver.value.repo.value)))))
    else v
  }

  // ------------------------------------------------------------------ properties

  /**
   * The tag strategy takes the first tag of the listed order that qualifies
   * (semver-valid, or matching the pattern when one is given), strips one
   * leading `v`, and pairs it with that tag's commit.
   */
  lemma VersionFromTagChoice(up: Upstream, cv: VersionCheck, m: Matchers)
    ensures var r := VersionFromTag(up, cv, m);
      r.Some? ==> up.tagList.Some? && ChosenTag(Git.GetAllTags(up.tagList.value), cv, m, up, r.value)
  {
    if up.tagList.Some? {
      VersionFromTagsChoice(Git.GetAllTags(up.tagList.value), up, cv, m);
    }
  }

  lemma VersionFromTagsChoice(tags: seq<string>, up: Upstream, cv: VersionCheck, m: Matchers)
    ensures var r := VersionFromTags(tags, up, cv, m);
      r.Some? ==> ChosenTag(tags, cv, m, up, r.value)
  {
    var sel := SelectTag(tags, cv, m);
    if sel.Some? && up.tagCommit(Trim(sel.value)).Some? {
      TagChoiceOf(tags, cv, m, up, sel.value);
    }
  }

  lemma TagChoiceOf(tags: seq<string>, cv: VersionCheck, m: Matchers, up: Upstream, tag: string)
    requires SelectTag(tags, cv, m) == Some(tag) && up.tagCommit(Trim(tag)).Some?
    ensures ChosenTag(tags, cv, m, up, Resolved(Utils.NormalizeVersion(Trim(tag)), Trim(up.tagCommit(Trim(tag)).value)))
  {
    SelectTagFirst(tags, cv, m);
    var k :| 0 <= k < |tags| && tags[k] == tag && Qualifies(cv, m, tags[k]) &&
      forall j :: 0 <= j < k ==> !Qualifies(cv, m, tags[j]);
    assert ChosenAt(tags, cv, m, up, Resolved(Utils.NormalizeVersion(Trim(tag)), Trim(up.tagCommit(Trim(tag)).value)), k);
  }

  /** `res` comes from `tags[k]`, the first qualifying tag: its version with one `v` stripped, and its commit. */
  predicate ChosenAt(tags: seq<string>, cv: VersionCheck, m: Matchers, up: Upstream, res: Resolved, k: int)
  {
    0 <= k < |tags| && Qualifies(cv, m, tags[k]) &&
    (forall j :: 0 <= j < k ==> !Qualifies(cv, m, tags[j])) &&
    res.version == Utils.NormalizeVersion(Trim(tags[k])) &&
    up.tagCommit(Trim(tags[k])).Some? && res.sha == Trim(up.tagCommit(Trim(tags[k])).value)
  }

  ghost predicate ChosenTag(tags: seq<string>, cv: VersionCheck, m: Matchers, up: Upstream, res: Resolved)
  {
    exists k :: ChosenAt(tags, cv, m, up, res, k)
  }

  /** A tag qualifies when it matches the pattern, or, without a pattern, when it is semver-valid. */
  predicate Qualifies(cv: VersionCheck, m: Matchers, t: string)
  {
    if Truthy(cv.tagPattern) then m.test(cv.tagPattern.value, t) else Truthy(m.semverValid(t))
  }

  /** The selected tag is the first qualifying one. */
  lemma SelectTagFirst(tags: seq<string>, cv: VersionCheck, m: Matchers)
    ensures SelectTag(tags, cv, m).None? <==> forall k :: 0 <= k < |tags| ==> !Qualifies(cv, m, tags[k])
    ensures SelectTag(tags, cv, m).Some? ==>
      exists k :: 0 <= k < |tags| && tags[k] == SelectTag(tags, cv, m).value && Qualifies(cv, m, tags[k]) &&
        forall j :: 0 <= j < k ==> !Qualifies(cv, m, tags[j])
  {
    var p := if Truthy(cv.tagPattern) then t => m.test(cv.tagPattern.value, t) else t => Truthy(m.semverValid(t));
    assert forall t :: p(t) == Qualifies(cv, m, t);
    assert SelectTag(tags, cv, m) == FindFirst(tags, p);
    if FindFirst(tags, p).Some? {
      FindFirstIndex(tags, p);
    }
  }

  /** No tags, or no qualifying tag, yields nothing. */
  lemma VersionFromTagNone(up: Upstream, cv: VersionCheck, m: Matchers)
    requires up.tagList.Some?
    requires forall k :: 0 <= k < |Git.GetAllTags(up.tagList.value)| ==> !Qualifies(cv, m, Git.GetAllTags(up.tagList.value)[k])
    ensures VersionFromTag(up, cv, m) == None
  {
    SelectTagFirst(Git.GetAllTags(up.tagList.value), cv, m);
  }

  /** The SHA strategy's version is the first seven characters of the full trimmed SHA. */
  lemma VersionFromShaShort(up: Upstream)
    ensures var r := VersionFromSha(up);
      (r.None? <==> up.head.None?) &&
      (r.Some? ==>
        (r.value.sha == Trim(up.head.value) && StartsWith(r.value.sha, r.value.version) &&
         |r.value.version| == if |r.value.sha| < 7 then |r.value.sha| else 7))
  {
  }

  /**
   * The file strategy needs a `file`, a non-empty extracted version and a
   * semver-valid one; its SHA is always searched with the term `version`.
   */
  lemma VersionFromFileShape(up: Upstream, cv: VersionCheck, m: Matchers)
    ensures var r := VersionFromFile(up, cv, m);
      (!Truthy(cv.file) ==> r.None?) &&
      (r.Some? ==>
        var raw := ExtractedVersion(up, cv.file.value, cv, m);
        Truthy(raw) && Truthy(m.semverValid(raw.value)) &&
        r.value.version == Utils.NormalizeVersion(m.semverValid(raw.value).value) &&
        up.pickaxe("version", cv.file.value).Some? &&
        r.value.sha == Trim(up.pickaxe("version", cv.file.value).value))
  {
  }

  /** A `package.json` file is read as JSON whatever the regex; otherwise the regex, else the whole trimmed file. */
  lemma ExtractedVersionBranches(up: Upstream, file: string, cv: VersionCheck, m: Matchers)
    ensures EndsWith(file, "package.json") ==> ExtractedVersion(up, file, cv, m) == VersionFromPackageJson(up, file, cv.regex, m)
    ensures !EndsWith(file, "package.json") && Truthy(cv.regex) ==>
      ExtractedVersion(up, file, cv, m) == VersionFromRegex(up, file, cv.regex.value, m)
    ensures !EndsWith(file, "package.json") && !Truthy(cv.regex) ==>
      (ExtractedVersion(up, file, cv, m).Some? <==> up.readFile(file).Some?) &&
      (up.readFile(file).Some? ==> ExtractedVersion(up, file, cv, m) == Some(Trim(up.readFile(file).value)))
  {
  }

  /** `manual`, `registry` and any other type yield nothing. */
  lemma VersionByTypeDispatch(kind: Option<string>, up: Upstream, cv: VersionCheck, m: Matchers)
    requires kind != Some("tag") && kind != Some("sha") && kind != Some("version")
    ensures VersionByType(kind, up, cv, m) == None
  {
  }

  /** Only an existing, non-empty repository field is rewritten, and it becomes a full URL. */
  lemma WithFullRepoShape(v: ImageVariant)
    ensures var w := WithFullRepo(v);
      w.version == v.version && w.sha == v.sha && w.enabled == v.enabled && w.docker == v.docker &&
      (w.checkver.Some? <==> v.checkver.Some?) &&
      (v.checkver.Some? ==> Truthy(w.checkver.value.repo) == Truthy(v.checkver.value.repo)) &&
      (v.checkver.Some? && Truthy(v.checkver.value.repo) ==>
        Utils.HasHttpScheme(w.checkver.value.repo.value) &&
        w.checkver.value.repo.value == Utils.DetectRepo(v.checkver.value.repo.value)) &&
      WithFullRepo(w) == w
  {
    if v.checkver.Some? && Truthy(v.checkver.value.repo) {
      Utils.DetectRepoIdempotent(v.checkver.value.repo.value);
    }
  }

  /** The options `check()` clones with. */
  function CloneOpts(cv: VersionCheck, context: string): Git.CloneOptions
  {
    Git.CloneOptions(cv.branch, cv.targetVersion, Some(context))
  }

  /**
   * What `check()` returns for the (rewritten) variant `v`, given whether
   * cloning or updating its repository returned normally: nothing without a
   * repository, a clone or a resolved version; otherwise the resolved
   * version and SHA, the update decision, and the commit information
   * collected exactly when an update is needed.
   */
  function CheckOutcome(context: string, name: string, v: ImageVariant, up: Upstream, m: Matchers, cloned: bool)
    : Option<CheckResult>
    requires v.checkver.Some?
  {
    var cv := v.checkver.value;
    var res := VersionByType(cv.kind, up, cv, m);
    if !Truthy(cv.repo) || !cloned || res.None? then None
    else
      var needsUpdate := NeedsUpdate(v, res.value);
      var info := if needsUpdate then Git.CommitInfoResult(res.value.sha, v.sha, up.query) else None;
      Some(CheckResult(res.value.version, res.value.sha, info, name, needsUpdate, v, context))
  }

  /**
   * A reported result carries the resolved version and SHA, the variant's
   * name, context and record, and commit information only with an update;
   * a variant with a repository, a successful clone and a resolved version
   * is always reported.
   */
  lemma CheckOutcomeMeaning(context: string, name: string, v: ImageVariant, up: Upstream, m: Matchers, cloned: bool)
    requires v.checkver.Some?
    ensures var r := CheckOutcome(context, name, v, up, m, cloned);
      var res := VersionByType(v.checkver.value.kind, up, v.checkver.value, m);
      (r.Some? <==> Truthy(v.checkver.value.repo) && cloned && res.Some?) &&
      (r.Some? ==>
        r.value.version == res.value.version && r.value.sha == res.value.sha &&
        r.value.variantName == name && r.value.context == context && r.value.variant == v &&
        (r.value.needsUpdate <==> v.version != Some(res.value.version) || v.sha != Some(res.value.sha)) &&
        (r.value.commitInfo.Some? ==> r.value.needsUpdate) &&
        (r.value.needsUpdate && v.sha != Some(res.value.sha) && Git.Answered(up.query, res.value.sha, Git.DiffRange(res.value.sha, v.sha)) ==>
          r.value.commitInfo == Some(Git.CollectedInfo(up.query, res.value.sha, Git.DiffRange(res.value.sha, v.sha)))))
  {
  }

  /** One variant's check, holding what the constructor derived. */
  class VariantContext {
    const context: string
    const name: string
    const variant: ImageVariant
    const repo: Option<string>
    const kind: Option<string>

    /** What the constructor derives: the repository and type are those of the rewritten variant. */
    predicate Valid()
    {
      variant.checkver.Some? && repo == variant.checkver.value.repo && kind == variant.checkver.value.kind
    }

    /** The constructor reads `variant.checkver.repo` unguarded, so a variant without `checkver` throws here. */
    constructor(context: string, name: string, variant: ImageVariant)
      requires variant.checkver.Some?
      ensures this.context == context && this.name == name
      ensures this.variant == WithFullRepo(variant)
      ensures repo == WithFullRepo(variant).checkver.value.repo
      ensures kind == variant.checkver.value.kind
      ensures Valid()
    {
      var v := variant;
      if Truthy(v.checkver.value.repo) {
        v := v.(checkver := Some(v.checkver.value.(repo := Some(Utils.DetectRepo(v.checkver.value.repo.value)))));
      }
      this.context := context;
      this.name := name;
      this.variant := v;
      this.repo := v.checkver.value.repo;
      this.kind := v.checkver.value.kind;
    }

    /** `getVersionFromFile`, which rebinds `version` stage by stage. */
    method GetVersionFromFile(up: Upstream, m: Matchers) returns (r: Option<Resolved>)
      requires variant.checkver.Some?
      ensures r == VersionFromFile(up, variant.checkver.value, m)
    {
      var cv := variant.checkver.value;
      if !Truthy(cv.file) {
        return None;
      }
      var file := cv.file.value;
      var version: Option<string>;
      if EndsWith(file, "package.json") {
        version := VersionFromPackageJson(up, file, cv.regex, m);
      } else if Truthy(cv.regex) {
        version := VersionFromRegex(up, file, cv.regex.value, m);
      } else {
        var content := up.readFile(file);
        version := if content.Some? then Some(Trim(content.value)) else None;
      }
      // `version && (semverValid(version) || '')`
      if Truthy(version) {
        var valid := m.semverValid(version.value);
        version := if Truthy(valid) then valid else Some("");
      }
      if !Truthy(version) {
        return None;
      }
      var sha := up.pickaxe(PickaxeTerm, file);
      if sha.None? {
        return None;
      }
      r := Some(Resolved(Utils.NormalizeVersion(version.value), Trim(sha.value)));
    }

    /**
     * `check()`: clones or updates the upstream repository in `cache`,
     * resolves the version by type, and collects commit information only
     * when an update is needed. `None` covers every early return and every
     * caught error.
     */
    method Check(cache: Git.RepoCache, up: Upstream, m: Matchers, ok: Git.Command -> bool, base64: string -> string)
      returns (r: Option<CheckResult>)
      requires Valid()
      modifies cache
      ensures !Truthy(variant.checkver.value.repo) ==>
        r == None && cache.repos == old(cache.repos) && cache.log == old(cache.log)
      ensures Truthy(variant.checkver.value.repo) ==>
        var plan := Git.RepoPlan(cache.cacheDir, old(cache.repos), repo.value, CloneOpts(variant.checkver.value, context), ok, base64);
        r == CheckOutcome(context, name, variant, up, m, plan.1) &&
        cache.log == old(cache.log) + plan.0 && cache.repos == Git.EffectAll(old(cache.repos), plan.0, ok)
    {
      var cv := variant.checkver.value;
      if !Truthy(cv.repo) {
        return None;
      }
      var path := cache.CloneOrUpdateRepo(repo.GetOr(""), CloneOpts(cv, context), ok, base64);
      if path.None? {
        return None;
      }
      var result: Option<Resolved>;
      if kind == Some("version") {
        result := GetVersionFromFile(up, m);
      } else {
        result := VersionByType(kind, up, cv, m);
      }
      if result.None? {
        return None;
      }
      var needsUpdate := variant.version != Some(result.value.version) || variant.sha != Some(result.value.sha);
      var commitInfo: Option<Git.CommitInfo> := None;
      if needsUpdate {
        commitInfo := Git.CollectCommitInfo(result.value.sha, variant.sha, up.query);
      }
      r := Some(CheckResult(result.value.version, result.value.sha, commitInfo, name, needsUpdate, variant, context));
    }
  }
}
