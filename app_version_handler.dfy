/**
 * The legacy per-app checker (action/src/hooks/handlers/AppVersionHandler.ts):
 * the handler's state across one check, where the new version comes from,
 * how the meta and the app's files are rewritten, and the pull request it
 * proposes.
 *
 * File reads and git commands are parameters: a read is `None` when the file
 * is missing, a command answer is `Failed` when `execCommand` throws. The
 * meta is resolved field by field rather than as its JSON text.
 */
module VersionHandler {
  import opened Options
  import opened Strings
  import Assoc
  import Template
  import Git
  import MetaApp

  // ------------------------------------------------------------------ data

  /** `checkVer` of a legacy meta. */
  datatype CheckVer = CheckVer(
    kind: string,                      // `type`: 'version' | 'sha' | 'tag'
    file: Option<string>,
    regex: Option<string>,
    branch: Option<string>,
    targetVersion: Option<string>,
    processFiles: Option<seq<string>>)

  /** `dockerMeta`, the fields the handler reads and writes. */
  datatype DockerMeta = DockerMeta(context: string, dockerfile: string, tags: Option<seq<string>>)

  datatype AppMeta = AppMeta(name: string, repo: string, version: string, sha: string, checkVer: CheckVer, dockerMeta: DockerMeta)

  datatype VersionInfo = VersionInfo(version: string, sha: string)

  /** A value, or the message of the error that was thrown. */
  datatype Outcome<T> = Ok(value: T) | Failed(message: string)

  /** An entry of `processedFiles`. */
  datatype FileResult = FileResult(filePath: string, content: string, hasChanged: bool)

  /** A file of the pull request: the meta (written as JSON) or plain text. */
  datatype FileContent = MetaJson(meta: AppMeta) | Text(text: string)

  datatype PullRequest = PullRequest(
    owner: string, repo: string, title: string, head: string, base: string,
    labels: seq<string>, files: seq<(string, FileContent)>, commit: string)

  /** What `createResult` is given: nothing, the PR data, or an error message. */
  datatype Payload = NoPayload | PrPayload(pr: PullRequest) | Message(text: string)

  datatype Status = Success | Error

  /** `CheckResult` without its duration. */
  datatype CheckResult = CheckResult(
    hasUpdate: bool, meta: AppMeta, oldMeta: AppMeta, status: Status,
    pr: Option<Payload>, error: Option<Payload>)

  const EmptyMeta := AppMeta("", "", "", "", CheckVer("", None, None, None, None, None), DockerMeta("", "", None))

  // ------------------------------------------------------------------ results

  /** `hasVersionUpdate()` */
  predicate HasVersionUpdate(info: VersionInfo, original: AppMeta)
  {
    info.version != original.version || info.sha != original.sha
  }

  /** `createResult(status, data)`: PR data on success, the error on failure, never both. */
  function CreateResult(info: VersionInfo, current: AppMeta, original: AppMeta, success: bool, data: Payload): (r: CheckResult)
    ensures r.hasUpdate <==> HasVersionUpdate(info, original)
    ensures r.meta == current && r.oldMeta == original
    ensures success ==> r.status == Success && r.pr == Some(data) && r.error.None?
    ensures !success ==> r.status == Error && r.pr.None? && r.error == Some(data)
  {
    CheckResult(HasVersionUpdate(info, original), current, original,
      if success then Success else Error,
      if success then Some(data) else None,
      if !success then Some(data) else None)
  }

  // ------------------------------------------------------------------ placeholders

  /** `getPlaceholderData()`: new values from the version info, old ones from the original meta. */
  function PlaceholderData(info: VersionInfo, original: AppMeta): (r: Template.PlaceholderData)
    ensures Assoc.Keys(r) == ["version", "sha", "fullSha"]
  {
    [("version", [Some(info.version), Some(original.version)]),
     ("sha", [Some(Take(info.sha, 7)), Some(Take(original.sha, 7))]),
     ("fullSha", [Some(info.sha), Some(original.sha)])]
  }

  /** Every key carries two values, the short SHA no more than seven characters of the full one. */
  lemma PlaceholderValues(info: VersionInfo, original: AppMeta)
    ensures var d := PlaceholderData(info, original);
      (forall k :: 0 <= k < 3 ==> |d[k].1| == 2 && d[k].1[0].Some? && d[k].1[1].Some?) &&
      StartsWith(info.sha, d[1].1[0].value) && |d[1].1[0].value| <= 7 &&
      StartsWith(original.sha, d[1].1[1].value) && |d[1].1[1].value| <= 7
  {
  }

  // ------------------------------------------------------------------ meta update

  function ResolveString(s: string, data: Template.PlaceholderData): string
  {
    Template.Resolve(s, data, Template.Legacy)
  }

  function ResolveStrings(xs: seq<string>, data: Template.PlaceholderData): (r: seq<string>)
    ensures |r| == |xs| && forall k :: 0 <= k < |xs| ==> r[k] == ResolveString(xs[k], data)
  {
    if |xs| == 0 then [] else [ResolveString(xs[0], data)] + ResolveStrings(xs[1..], data)
  }

  function ResolveOption(o: Option<string>, data: Template.PlaceholderData): Option<string>
  {
    if o.None? then None else Some(ResolveString(o.value, data))
  }

  /** The meta with the template resolved in every string it holds. */
  function ResolveMeta(m: AppMeta, data: Template.PlaceholderData): AppMeta
  {
    var cv := m.checkVer;
    var dm := m.dockerMeta;
    AppMeta(
      ResolveString(m.name, data), ResolveString(m.repo, data), ResolveString(m.version, data), ResolveString(m.sha, data),
      CheckVer(ResolveString(cv.kind, data), ResolveOption(cv.file, data), ResolveOption(cv.regex, data),
        ResolveOption(cv.branch, data), ResolveOption(cv.targetVersion, data),
        if cv.processFiles.None? then None else Some(ResolveStrings(cv.processFiles.value, data))),
      DockerMeta(ResolveString(dm.context, data), ResolveString(dm.dockerfile, data),
        if dm.tags.None? then None else Some(ResolveStrings(dm.tags.value, data))))
  }

  /** The tags used when the meta gives none. */
  function DefaultTags(version: string, sha: string): seq<string>
  {
    ["type=raw,value=latest", "type=raw,value=" + version, "type=raw,value=" + Take(sha, 7)]
  }

  /** Present, non-empty tags, or the defaults; first occurrences only. */
  function FinalTags(tags: Option<seq<string>>, version: string, sha: string): (r: seq<string>)
    ensures tags.None? || |tags.value| == 0 ==> r == Distinct(DefaultTags(version, sha))
    ensures tags.Some? && |tags.value| > 0 ==> r == Distinct(tags.value)
  {
    Distinct(if tags.None? || |tags.value| == 0 then DefaultTags(version, sha) else tags.value)
  }

  /**
   * `updateCurrentMeta()`: the version info laid over the current meta, the
   * template resolved through it, then the tags defaulted and de-duplicated.
   */
  function UpdatedMeta(current: AppMeta, info: VersionInfo, original: AppMeta): AppMeta
  {
    var m := ResolveMeta(current.(version := info.version, sha := info.sha), PlaceholderData(info, original));
    m.(dockerMeta := m.dockerMeta.(tags := Some(FinalTags(m.dockerMeta.tags, m.version, m.sha))))
  }

  /** The tags of the updated meta: defaults when none were given, each tag once, nothing new besides. */
  lemma UpdatedTags(current: AppMeta, info: VersionInfo, original: AppMeta)
    ensures var m := ResolveMeta(current.(version := info.version, sha := info.sha), PlaceholderData(info, original));
      var tags := UpdatedMeta(current, info, original).dockerMeta.tags.value;
      var source := if m.dockerMeta.tags.None? || |m.dockerMeta.tags.value| == 0 then DefaultTags(m.version, m.sha) else m.dockerMeta.tags.value;
      (forall i, j :: 0 <= i < j < |tags| ==> tags[i] != tags[j]) &&
      (forall t :: t in tags <==> t in source)
  {
  }

  /** Without templates or old values in it, the meta keeps the new version and SHA. */
  lemma UpdatedVersionKept(current: AppMeta, info: VersionInfo, original: AppMeta)
    requires Template.Clean(info.version) && Template.Clean(info.sha)
    requires original.version != "" && !Contains(info.version, original.version) && !Contains(info.sha, original.version)
    requires |Take(original.sha, 7)| > 0 && !Contains(info.version, Take(original.sha, 7)) && !Contains(info.sha, Take(original.sha, 7))
    requires !Contains(info.version, original.sha) && !Contains(info.sha, original.sha)
    ensures UpdatedMeta(current, info, original).version == info.version
    ensures UpdatedMeta(current, info, original).sha == info.sha
  {
    var data := PlaceholderData(info, original);
    ResolveUntouched(info.version, data);
    ResolveUntouched(info.sha, data);
  }

  /** Resolution with three entries is the three entries applied in turn. */
  lemma ResolveThree(s: string, data: Template.PlaceholderData)
    requires |data| == 3
    ensures ResolveString(s, data) ==
      Template.ApplyEntry(Template.ApplyEntry(Template.ApplyEntry(s, data[0].0, data[0].1, Template.Legacy),
        data[1].0, data[1].1, Template.Legacy), data[2].0, data[2].1, Template.Legacy)
  {
    var a0 := Template.ApplyEntry(s, data[0].0, data[0].1, Template.Legacy);
    var a1 := Template.ApplyEntry(a0, data[1].0, data[1].1, Template.Legacy);
    var a2 := Template.ApplyEntry(a1, data[2].0, data[2].1, Template.Legacy);
    assert Template.Resolve(s, data, Template.Legacy) == Template.Resolve(a0, data[1..], Template.Legacy);
    assert data[1..][0] == data[1] && data[1..][1..] == data[2..];
    assert Template.Resolve(a0, data[1..], Template.Legacy) == Template.Resolve(a1, data[2..], Template.Legacy);
    assert data[2..][0] == data[2] && data[2..][1..] == [];
    assert Template.Resolve(a1, data[2..], Template.Legacy) == Template.Resolve(a2, [], Template.Legacy);
  }

  /** A clean string containing none of the three old values comes through resolution unchanged. */
  lemma ResolveUntouched(s: string, data: Template.PlaceholderData)
    requires |data| == 3 && forall k :: 0 <= k < 3 ==> |data[k].1| == 2 && data[k].1[0].Some? && data[k].1[1].Some?
    requires Template.Clean(s)
    requires forall k :: 0 <= k < 3 ==> data[k].1[1].value != "" && !Contains(s, data[k].1[1].value)
    ensures ResolveString(s, data) == s
  {
    forall k | 0 <= k < 3 ensures Template.ApplyEntry(s, data[k].0, data[k].1, Template.Legacy) == s {
      Template.ReplacePlaceholdersClean(s, data[k].0, data[k].1[0].value);
      ReplaceAllAbsent(s, data[k].1[1].value, data[k].1[0].value);
    }
    ResolveThree(s, data);
  }

  /**
   * The version is overlaid before the template is resolved, so the old
   * version is replaced inside the new one as well: moving from `1.2` to
   * `1.2.1` stores `1.2.1.1`.
   */
  lemma OldVersionInsideNewVersion(current: AppMeta)
    ensures UpdatedMeta(current, VersionInfo("1.2.1", "aaaaaaa"), current.(version := "1.2", sha := "bbbbbbb")).version == "1.2.1.1"
  {
    var info := VersionInfo("1.2.1", "aaaaaaa");
    var original := current.(version := "1.2", sha := "bbbbbbb");
    var data := PlaceholderData(info, original);
    assert data[0].1 == [Some("1.2.1"), Some("1.2")];
    assert Take("aaaaaaa", 7) == "aaaaaaa" && Take("bbbbbbb", 7) == "bbbbbbb";
    assert data[1].1 == [Some("aaaaaaa"), Some("bbbbbbb")] && data[2].1 == [Some("aaaaaaa"), Some("bbbbbbb")];
    VersionEntry();
    ShaEntries(data[1].0, data[2].0);
    ResolveThree("1.2.1", data);
  }

  lemma VersionEntry()
    ensures Template.ApplyEntry("1.2.1", "version", [Some("1.2.1"), Some("1.2")], Template.Legacy) == "1.2.1.1"
  {
    Template.ReplacePlaceholdersClean("1.2.1", "version", "1.2.1");
    VersionRewrite();
  }

  lemma ShaEntries(k1: string, k2: string)
    ensures var v1 := Template.ApplyEntry("1.2.1.1", k1, [Some("aaaaaaa"), Some("bbbbbbb")], Template.Legacy);
      v1 == "1.2.1.1" && Template.ApplyEntry(v1, k2, [Some("aaaaaaa"), Some("bbbbbbb")], Template.Legacy) == "1.2.1.1"
  {
    NoShaIn("1.2.1.1");
    Template.ReplacePlaceholdersClean("1.2.1.1", k1, "aaaaaaa");
    Template.ReplacePlaceholdersClean("1.2.1.1", k2, "aaaaaaa");
    ReplaceAllAbsent("1.2.1.1", "bbbbbbb", "aaaaaaa");
  }

  lemma VersionRewrite()
    ensures ReplaceAll("1.2.1", "1.2", "1.2.1") == "1.2.1.1"
  {
    var s := "1.2.1";
    assert StartsWith(s, "1.2");
    assert s[3..] == ".1";
    var t := ".1";
    assert !StartsWith(t, "1.2") && t[1..] == "1";
    assert !StartsWith("1", "1.2") && "1"[1..] == "";
  }

  lemma NoShaIn(s: string)
    requires forall k :: 0 <= k < |s| ==> s[k] != 'b'
    ensures !Contains(s, "bbbbbbb")
  {
    forall i: nat | i <= |s| ensures !OccursAt(s, "bbbbbbb", i) {
      if i + 7 <= |s| {
        assert s[i..i + 7][0] == s[i];
      }
    }
  }

  // ------------------------------------------------------------------ version sources

  /** `.replace(/^v/, '')` */
  function StripV(s: string): (r: string)
    ensures r == s || "v" + r == s
  {
    if StartsWith(s, "v") then s[1..] else s
  }

  /**
   * `extractVersionFromFile`: group 1 of the regex (matched against the
   * trimmed content) when the regex is given and the group is non-empty,
   * else the whole trimmed content; trimmed and without a leading `v`.
   */
  function ExtractVersion(content: string, regex: Option<string>, group: Option<string>): string
  {
    if Truthy(regex) && Truthy(group) then StripV(Trim(group.value)) else StripV(Trim(content))
  }

  /** The version read is the chosen text, trimmed, less at most one leading `v`. */
  lemma ExtractVersionSource(content: string, regex: Option<string>, group: Option<string>)
    ensures var src := if Truthy(regex) && Truthy(group) then group.value else content;
      var r := ExtractVersion(content, regex, group);
      r == Trim(src) || "v" + r == Trim(src)
    ensures forall x :: !StartsWith(x, "v") && IsTrimmed(x) ==> ExtractVersion(x, None, group) == x
  {
    forall x | !StartsWith(x, "v") && IsTrimmed(x) ensures ExtractVersion(x, None, group) == x {
      TrimOfTrimmed(x);
    }
  }

  /** `pkgContent?.version?.replace(/^v/, '') || ''` */
  function PackageVersion(version: Option<string>): string
  {
    if version.None? then "" else StripV(version.value)
  }

  /** What a version check can read: the version file, and the answers of the git commands. */
  datatype Sources = Sources(
    fileExists: bool,
    fileContent: string,
    packageVersion: Option<string>,  // `version` of the parsed package.json
    regexGroup: Option<string>,      // group 1 of the regex matched against the trimmed content
    fileSha: Outcome<string>,        // `git log -G"version" --format=%H -n 1 -- <file>`
    headSha: Outcome<string>,        // `git log -1 --format=%H`
    latestTag: Outcome<string>,      // `git describe --tags --abbrev=0`
    tagSha: Outcome<string>)         // `git rev-list -n 1 <tag>`

  /** `getVersionFromFile()` */
  function VersionFromFile(current: AppMeta, src: Sources): Outcome<VersionInfo>
  {
    var file := current.checkVer.file;
    if !Truthy(file) then Failed("Version file not specified")
    else if !src.fileExists then Ok(VersionInfo(current.version, current.sha))
    else
      var version := if EndsWith(file.value, "package.json") then PackageVersion(src.packageVersion)
        else ExtractVersion(src.fileContent, current.checkVer.regex, src.regexGroup);
      if src.fileSha.Failed? then Failed(src.fileSha.message) else Ok(VersionInfo(version, Trim(src.fileSha.value)))
  }

  /** `getVersionFromSha()`: the head commit, its first seven characters as the version. */
  function VersionFromSha(src: Sources): Outcome<VersionInfo>
  {
    if src.headSha.Failed? then Failed(src.headSha.message)
    else Ok(VersionInfo(Take(Trim(src.headSha.value), 7), Trim(src.headSha.value)))
  }

  /** `getVersionFromTag()`: the latest tag without its `v`, and the commit it points to. */
  function VersionFromTag(src: Sources): Outcome<VersionInfo>
  {
    if src.latestTag.Failed? then Failed(src.latestTag.message)
    else if src.tagSha.Failed? then Failed(src.tagSha.message)
    else Ok(VersionInfo(StripV(Trim(src.latestTag.value)), Trim(src.tagSha.value)))
  }

  /** `getVersionInfo()`: dispatch on the check type. */
  function VersionInfoOf(current: AppMeta, src: Sources): Outcome<VersionInfo>
  {
    var kind := current.checkVer.kind;
    if kind == "version" then VersionFromFile(current, src)
    else if kind == "sha" then VersionFromSha(src)
    else if kind == "tag" then VersionFromTag(src)
    else Failed("Unsupported check type: " + kind)
  }

  /** A missing version file gives the current version and SHA, so no update is found. */
  lemma MissingVersionFile(current: AppMeta, src: Sources)
    requires current.checkVer.kind == "version" && Truthy(current.checkVer.file) && !src.fileExists
    ensures VersionInfoOf(current, src) == Ok(VersionInfo(current.version, current.sha))
    ensures !HasVersionUpdate(VersionInfoOf(current, src).value, current)
  {
  }

  /** A SHA check's version is the first seven characters of the head commit. */
  lemma ShaVersion(current: AppMeta, src: Sources)
    requires current.checkVer.kind == "sha" && src.headSha.Ok?
    ensures var v := VersionInfoOf(current, src).value;
      StartsWith(v.sha, v.version) && |v.version| == (if |v.sha| < 7 then |v.sha| else 7)
  {
  }

  /** Only the three check types are supported. */
  lemma UnsupportedKind(current: AppMeta, src: Sources)
    requires current.checkVer.kind !in {"version", "sha", "tag"}
    ensures VersionInfoOf(current, src) == Failed("Unsupported check type: " + current.checkVer.kind)
  {
  }

  // ------------------------------------------------------------------ commit info

  /** `defaultCommitInfo` */
  const NoCommitInfo := Git.CommitInfo("", "", "", 0, 0, 0, [])

  /**
   * The record the handler collects: nothing when the SHA is unchanged or a
   * command fails; otherwise the trimmed log fields, the counts from the
   * `--shortstat` line (matched untrimmed, read only when it is not blank)
   * and the recent commits.
   */
  function CommitInfoOf(run: Git.Query -> Option<string>, sha: string, oldSha: string): Git.CommitInfo
  {
    var range := Git.DiffRange(sha, Some(oldSha));
    if sha == oldSha || !Git.Answered(run, sha, range) then NoCommitInfo
    else
      var stat := run(Git.ShortStat(range)).value;
      var counted := Trim(stat) != "";
      Git.CommitInfo(
        Trim(run(Git.Subject(sha)).value), Trim(run(Git.Author(sha)).value), Trim(run(Git.Date(sha)).value),
        Git.ChangedFileCount(run(Git.NameOnly(range)).value),
        if counted then Git.FirstCount(stat, "insertion", '+').GetOr(0) else 0,
        if counted then Git.FirstCount(stat, "deletion", '-').GetOr(0) else 0,
        Git.RecentCommits(run(Git.Oneline(range)).value))
  }

  /** Unchanged SHA or a failed command: the empty record; otherwise the message is the trimmed subject. */
  lemma CommitInfoCases(run: Git.Query -> Option<string>, sha: string, oldSha: string)
    ensures sha == oldSha ==> CommitInfoOf(run, sha, oldSha) == NoCommitInfo
    ensures !Git.Answered(run, sha, Git.DiffRange(sha, Some(oldSha))) ==> CommitInfoOf(run, sha, oldSha) == NoCommitInfo
    ensures sha != oldSha && Git.Answered(run, sha, Git.DiffRange(sha, Some(oldSha))) ==>
      CommitInfoOf(run, sha, oldSha).commitMessage == Trim(run(Git.Subject(sha)).value) &&
      |CommitInfoOf(run, sha, oldSha).recentCommits| <= 10
    ensures oldSha == "" ==> Git.DiffRange(sha, Some(oldSha)) == sha
  {
  }

  // ------------------------------------------------------------------ files and PR

  /** `{ type }` of the files the handler rewrites. */
  function FilesToProcess(m: AppMeta): seq<string>
  {
    var extra := if m.checkVer.processFiles.None? then [] else m.checkVer.processFiles.value;
    [MetaApp.JoinPath(m.dockerMeta.context, "meta.json"), MetaApp.JoinPath(m.dockerMeta.context, m.dockerMeta.dockerfile)]
      + JoinAll(m.dockerMeta.context, extra)
  }

  function JoinAll(context: string, files: seq<string>): (r: seq<string>)
    ensures |r| == |files| && forall k :: 0 <= k < |files| ==> r[k] == MetaApp.JoinPath(context, files[k])
  {
    if |files| == 0 then [] else [MetaApp.JoinPath(context, files[0])] + JoinAll(context, files[1..])
  }

  /** The content a file gets: templated only when there is an update. */
  function ProcessedContent(original: string, update: bool, data: Template.PlaceholderData): string
  {
    if update then Template.Resolve(original, data, Template.Legacy) else original
  }

  /** `processedFiles` after `processFile` for each of `paths`, in order; missing files are skipped. */
  function ProcessAll(done: seq<(string, FileResult)>, paths: seq<string>, read: string -> Option<string>,
                      update: bool, data: Template.PlaceholderData): seq<(string, FileResult)>
    decreases |paths|
  {
    if |paths| == 0 then done
    else
      var p := paths[0];
      var next := if read(p).None? then done
        else
          var c := ProcessedContent(read(p).value, update, data);
          Assoc.Put(done, p, FileResult(p, c, read(p).value != c));
      ProcessAll(next, paths[1..], read, update, data)
  }

  /** Processing keeps one entry per path. */
  lemma {:induction false} ProcessAllDistinct(done: seq<(string, FileResult)>, paths: seq<string>, read: string -> Option<string>,
                                              update: bool, data: Template.PlaceholderData)
    requires Assoc.DistinctKeys(done)
    ensures Assoc.DistinctKeys(ProcessAll(done, paths, read, update, data))
    decreases |paths|
  {
    if |paths| > 0 {
      var p := paths[0];
      if read(p).Some? {
        var c := ProcessedContent(read(p).value, update, data);
        Assoc.PutKeys(done, p, FileResult(p, c, read(p).value != c));
      }
      ProcessAllDistinct(if read(p).None? then done else
        Assoc.Put(done, p, FileResult(p, ProcessedContent(read(p).value, update, data), read(p).value != ProcessedContent(read(p).value, update, data))),
        paths[1..], read, update, data);
    }
  }

  /** Without an update no file is marked as changed. */
  lemma {:induction false} ProcessAllUnchanged(done: seq<(string, FileResult)>, paths: seq<string>, read: string -> Option<string>,
                                               data: Template.PlaceholderData)
    requires forall k :: 0 <= k < |done| ==> !done[k].1.hasChanged
    ensures var r := ProcessAll(done, paths, read, false, data); forall k :: 0 <= k < |r| ==> !r[k].1.hasChanged
    decreases |paths|
  {
    if |paths| > 0 {
      var p := paths[0];
      var next := done;
      if read(p).Some? {
        next := Assoc.Put(done, p, FileResult(p, read(p).value, false));
        Assoc.PutIn(done, p, FileResult(p, read(p).value, false));
        forall k | 0 <= k < |next| ensures !next[k].1.hasChanged {
          if next[k] != (p, FileResult(p, read(p).value, false)) {
            assert next[k] in done;
          }
        }
      }
      assert ProcessAll(done, paths, read, false, data) == ProcessAll(next, paths[1..], read, false, data);
      ProcessAllUnchanged(next, paths[1..], read, data);
    }
  }

  /** The PR's files: the meta first, then each changed file other than the meta, in processing order. */
  function PrFiles(acc: seq<(string, FileContent)>, processed: seq<(string, FileResult)>, metaPath: string): seq<(string, FileContent)>
    decreases |processed|
  {
    if |processed| == 0 then acc
    else
      var (p, r) := processed[0];
      PrFiles(if r.hasChanged && p != metaPath then Assoc.Put(acc, p, Text(r.content)) else acc, processed[1..], metaPath)
  }

  /** Looking a path up in the PR's files. */
  lemma {:induction false} PrFilesGet(acc: seq<(string, FileContent)>, processed: seq<(string, FileResult)>, metaPath: string, p: string)
    requires Assoc.DistinctKeys(processed)
    ensures var e := Assoc.Get(processed, p);
      Assoc.Get(PrFiles(acc, processed, metaPath), p) ==
        if p != metaPath && e.Some? && e.value.hasChanged then Some(Text(e.value.content)) else Assoc.Get(acc, p)
    decreases |processed|
  {
    if |processed| > 0 {
      var (q, r) := processed[0];
      var acc' := if r.hasChanged && q != metaPath then Assoc.Put(acc, q, Text(r.content)) else acc;
      assert Assoc.DistinctKeys(processed[1..]) by {
        forall i, j | 0 <= i < j < |processed[1..]| ensures processed[1..][i].0 != processed[1..][j].0 {
          assert processed[1..][i] == processed[i + 1] && processed[1..][j] == processed[j + 1];
        }
      }
      PrFilesGet(acc', processed[1..], metaPath, p);
      Assoc.PutGet(acc, q, Text(r.content), p);
      assert Assoc.Keys(processed) == [q] + Assoc.Keys(processed[1..]);
      if q == p {
        assert !Assoc.HasKey(processed[1..], p) by {
          forall l | 0 <= l < |processed[1..]| ensures Assoc.Keys(processed[1..])[l] != p {
            assert processed[1..][l] == processed[l + 1];
          }
        }
      }
    }
  }

  /** The PR always carries the current meta, and a processed file exactly when it changed. */
  lemma PrFilesContents(meta: AppMeta, processed: seq<(string, FileResult)>, metaPath: string, p: string)
    requires Assoc.DistinctKeys(processed)
    ensures Assoc.Get(PrFiles([(metaPath, MetaJson(meta))], processed, metaPath), metaPath) == Some(MetaJson(meta))
    ensures p != metaPath ==>
      (Assoc.HasKey(PrFiles([(metaPath, MetaJson(meta))], processed, metaPath), p) <==>
        Assoc.HasKey(processed, p) && Assoc.Get(processed, p).value.hasChanged)
  {
    PrFilesGet([(metaPath, MetaJson(meta))], processed, metaPath, metaPath);
    PrFilesGet([(metaPath, MetaJson(meta))], processed, metaPath, p);
    assert Assoc.Keys([(metaPath, MetaJson(meta))]) == [metaPath];
  }

  /** `<prefix>(<context>): update version to <version>` */
  function PrTitle(prefix: string, context: string, version: string): string
  {
    prefix + "(" + context + "): update version to " + version
  }

  // ------------------------------------------------------------------ the handler

  class AppVersionHandler {
    var originalMeta: AppMeta
    var currentMeta: AppMeta
    var versionInfo: VersionInfo
    var commitInfo: Option<Git.CommitInfo>
    var processedFiles: seq<(string, FileResult)>

    /** The fields are unset until `initializeHandler`. */
    constructor()
      ensures commitInfo.None? && processedFiles == []
    {
      originalMeta := EmptyMeta;
      currentMeta := EmptyMeta;
      versionInfo := VersionInfo("", "");
      commitInfo := None;
      processedFiles := [];
    }

    /** `initializeHandler(meta)`: a fresh state for one check. */
    method InitializeHandler(meta: AppMeta)
      modifies this
      ensures originalMeta == meta && currentMeta == meta
      ensures versionInfo == VersionInfo("", "") && commitInfo.None? && processedFiles == []
    {
      originalMeta := meta;
      currentMeta := meta;
      versionInfo := VersionInfo("", "");
      commitInfo := None;
      processedFiles := [];
    }

    /** `this.versionInfo = await this.getVersionInfo()` */
    method GetVersionInfo(src: Sources) returns (r: Outcome<VersionInfo>)
      modifies this
      ensures r == VersionInfoOf(old(currentMeta), src)
      ensures r.Ok? ==> versionInfo == r.value
      ensures r.Failed? ==> versionInfo == old(versionInfo)
      ensures currentMeta == old(currentMeta) && originalMeta == old(originalMeta)
      ensures commitInfo == old(commitInfo) && processedFiles == old(processedFiles)
    {
      r := VersionInfoOf(currentMeta, src);
      if r.Ok? {
        versionInfo := r.value;
      }
    }

    predicate Updated()
      reads this
    {
      HasVersionUpdate(versionInfo, originalMeta)
    }

    /** `updateCurrentMeta()` */
    method UpdateCurrentMeta()
      modifies this
      ensures currentMeta == UpdatedMeta(old(currentMeta), versionInfo, originalMeta)
      ensures originalMeta == old(originalMeta) && versionInfo == old(versionInfo)
      ensures commitInfo == old(commitInfo) && processedFiles == old(processedFiles)
    {
      var meta := currentMeta.(version := versionInfo.version, sha := versionInfo.sha);
      var newMeta := ResolveMeta(meta, PlaceholderData(versionInfo, originalMeta));
      var tags := newMeta.dockerMeta.tags;
      if tags.None? || |tags.value| == 0 {
        tags := Some(DefaultTags(newMeta.version, newMeta.sha));
      }
      newMeta := newMeta.(dockerMeta := newMeta.dockerMeta.(tags := Some(Distinct(tags.value))));
      currentMeta := newMeta;
    }

    /** `getFilesToProcess()`: the meta, the Dockerfile, then the extra files, each under the context. */
    method GetFilesToProcess() returns (files: seq<string>)
      ensures files == FilesToProcess(currentMeta)
      ensures |files| >= 2 && files[0] == MetaApp.JoinPath(currentMeta.dockerMeta.context, "meta.json")
      ensures files[1] == MetaApp.JoinPath(currentMeta.dockerMeta.context, currentMeta.dockerMeta.dockerfile)
    {
      var contextPath := currentMeta.dockerMeta.context;
      files := [];
      files := files + [MetaApp.JoinPath(contextPath, "meta.json")];
      files := files + [MetaApp.JoinPath(contextPath, currentMeta.dockerMeta.dockerfile)];
      var processFiles := currentMeta.checkVer.processFiles;
      if processFiles.Some? {
        var extra := processFiles.value;
        var i := 0;
        while i < |extra|
          invariant 0 <= i <= |extra|
          invariant |files| == 2 + i
          invariant files[..2] == FilesToProcess(currentMeta)[..2]
          invariant forall k :: 0 <= k < i ==> files[2 + k] == MetaApp.JoinPath(contextPath, extra[k])
        {
          files := files + [MetaApp.JoinPath(contextPath, extra[i])];
          i := i + 1;
        }
      }
    }

    /** `processFile(filePath)`: records the file's new content when it exists. */
    method ProcessFile(path: string, read: string -> Option<string>)
      modifies this
      ensures processedFiles == ProcessAll(old(processedFiles), [path], read, Updated(), PlaceholderData(versionInfo, originalMeta))
      ensures originalMeta == old(originalMeta) && currentMeta == old(currentMeta)
      ensures versionInfo == old(versionInfo) && commitInfo == old(commitInfo)
    {
      var originalContent := read(path);
      if originalContent.None? {
        return;
      }
      var content := ProcessedContent(originalContent.value, Updated(), PlaceholderData(versionInfo, originalMeta));
      processedFiles := Assoc.Put(processedFiles, path, FileResult(path, content, originalContent.value != content));
    }

    /** `processAllFiles()` */
    method ProcessAllFiles(read: string -> Option<string>)
      modifies this
      ensures processedFiles == ProcessAll(old(processedFiles), FilesToProcess(currentMeta), read, Updated(), PlaceholderData(versionInfo, originalMeta))
      ensures originalMeta == old(originalMeta) && currentMeta == old(currentMeta)
      ensures versionInfo == old(versionInfo) && commitInfo == old(commitInfo)
    {
      var files := GetFilesToProcess();
      ghost var start := processedFiles;
      var i := 0;
      while i < |files|
        invariant 0 <= i <= |files|
        invariant originalMeta == old(originalMeta) && currentMeta == old(currentMeta)
        invariant versionInfo == old(versionInfo) && commitInfo == old(commitInfo)
        invariant ProcessAll(processedFiles, files[i..], read, Updated(), PlaceholderData(versionInfo, originalMeta))
               == ProcessAll(start, files, read, Updated(), PlaceholderData(versionInfo, originalMeta))
      {
        assert files[i..][1..] == files[i + 1..];
        ProcessFile(files[i], read);
        i := i + 1;
      }
    }

    /**
     * `buildPRData()`: the body first collects the commit info when none is
     * set yet, then the files are processed; title and commit name the
     * context and version; the files are the meta plus every changed file.
     */
    method BuildPRData(mock: bool, owner: string, repo: string, defaultBranchInput: string, currentBranch: string,
                       read: string -> Option<string>, run: Git.Query -> Option<string>) returns (pr: PullRequest)
      modifies this
      ensures var metaPath := MetaApp.JoinPath(currentMeta.dockerMeta.context, "meta.json");
        pr.files == PrFiles([(metaPath, MetaJson(currentMeta))], processedFiles, metaPath)
      ensures pr.title == PrTitle(if mock then "mock" else "chore", currentMeta.dockerMeta.context, currentMeta.version)
      ensures pr.commit == PrTitle("chore", currentMeta.dockerMeta.context, currentMeta.version)
      ensures pr.head == (if mock then "mock/update" else "update") + "/" + currentMeta.name + "-" + currentMeta.version
      ensures pr.base == (if defaultBranchInput != "" then defaultBranchInput else currentBranch)
      ensures pr.labels == ["automerge"] && pr.owner == owner && pr.repo == repo
      ensures processedFiles == ProcessAll(old(processedFiles), FilesToProcess(currentMeta), read, Updated(), PlaceholderData(versionInfo, originalMeta))
      ensures originalMeta == old(originalMeta) && currentMeta == old(currentMeta)
      ensures versionInfo == old(versionInfo)
      ensures commitInfo == if old(commitInfo).None? then Some(CommitInfoOf(run, currentMeta.sha, originalMeta.sha)) else old(commitInfo)
    {
      var context := currentMeta.dockerMeta.context;
      var branchPrefix := if mock then "mock/update" else "update";
      var titlePrefix := if mock then "mock" else "chore";
      if commitInfo.None? {
        CollectCommitInfo(run);
      }
      var metaPath := MetaApp.JoinPath(context, "meta.json");
      var files := [(metaPath, MetaJson(currentMeta))];
      ProcessAllFiles(read);
      var i := 0;
      while i < |processedFiles|
        invariant 0 <= i <= |processedFiles|
        invariant PrFiles(files, processedFiles[i..], metaPath) == PrFiles([(metaPath, MetaJson(currentMeta))], processedFiles, metaPath)
      {
        var (filePath, result) := processedFiles[i];
        assert processedFiles[i..][1..] == processedFiles[i + 1..];
        if result.hasChanged && filePath != metaPath {
          files := Assoc.Put(files, filePath, Text(result.content));
        }
        i := i + 1;
      }
      pr := PullRequest(owner, repo, PrTitle(titlePrefix, context, currentMeta.version),
        branchPrefix + "/" + currentMeta.name + "-" + currentMeta.version,
        if defaultBranchInput != "" then defaultBranchInput else currentBranch,
        ["automerge"], files, PrTitle("chore", context, currentMeta.version));
    }

    /** `collectCommitInfo()`: always leaves a record, the empty one when nothing could be read. */
    method CollectCommitInfo(run: Git.Query -> Option<string>)
      modifies this
      ensures commitInfo == Some(CommitInfoOf(run, currentMeta.sha, originalMeta.sha))
      ensures originalMeta == old(originalMeta) && currentMeta == old(currentMeta)
      ensures versionInfo == old(versionInfo) && processedFiles == old(processedFiles)
    {
      var oldSha := originalMeta.sha;
      var sha := currentMeta.sha;
      if sha == oldSha {
        commitInfo := Some(NoCommitInfo);
        return;
      }
      var range := Git.DiffRange(sha, Some(oldSha));
      if !Git.Answered(run, sha, range) {
        commitInfo := Some(NoCommitInfo);
        return;
      }
      var diffStat := run(Git.ShortStat(range)).value;
      var additions, deletions := 0, 0;
      if Trim(diffStat) != "" {
        additions := Git.FirstCount(diffStat, "insertion", '+').GetOr(0);
        deletions := Git.FirstCount(diffStat, "deletion", '-').GetOr(0);
      }
      commitInfo := Some(Git.CommitInfo(
        Trim(run(Git.Subject(sha)).value), Trim(run(Git.Author(sha)).value), Trim(run(Git.Date(sha)).value),
        Git.ChangedFileCount(run(Git.NameOnly(range)).value), additions, deletions,
        Git.RecentCommits(run(Git.Oneline(range)).value)));
    }

    /**
     * `check(meta)`: no update gives a success without PR data, an update
     * the PR data for the updated meta, and a failure while reading the
     * version an error result. On that failure the version info is still the
     * empty one, so `hasUpdate` compares the empty version with the meta's.
     */
    method Check(meta: AppMeta, src: Sources, mock: bool, owner: string, repo: string,
                 defaultBranchInput: string, currentBranch: string,
                 read: string -> Option<string>, run: Git.Query -> Option<string>) returns (r: CheckResult)
      modifies this
      ensures originalMeta == meta && r.oldMeta == meta
      ensures VersionInfoOf(meta, src).Failed? ==>
        r.status == Error && r.error == Some(Message(VersionInfoOf(meta, src).message)) && r.meta == meta &&
        (r.hasUpdate <==> meta.version != "" || meta.sha != "")
      ensures VersionInfoOf(meta, src).Ok? && !HasVersionUpdate(VersionInfoOf(meta, src).value, meta) ==>
        r.status == Success && r.pr == Some(NoPayload) && r.meta == meta && !r.hasUpdate
      ensures VersionInfoOf(meta, src).Ok? && HasVersionUpdate(VersionInfoOf(meta, src).value, meta) ==>
        var m := UpdatedMeta(meta, VersionInfoOf(meta, src).value, meta);
        r.status == Success && r.hasUpdate && r.meta == m && r.error.None? &&
        r.pr.Some? && r.pr.value.PrPayload? &&
        r.pr.value.pr.title == PrTitle(if mock then "mock" else "chore", m.dockerMeta.context, m.version)
      ensures VersionInfoOf(meta, src).Ok? && HasVersionUpdate(VersionInfoOf(meta, src).value, meta) ==>
        var info := VersionInfoOf(meta, src).value;
        var m := UpdatedMeta(meta, info, meta);
        var metaPath := MetaApp.JoinPath(m.dockerMeta.context, "meta.json");
        r.pr.Some? && r.pr.value.PrPayload? &&
        r.pr.value.pr.files == PrFiles([(metaPath, MetaJson(m))], ProcessAll([], FilesToProcess(m), read, true, PlaceholderData(info, meta)), metaPath) &&
        r.pr.value.pr.commit == PrTitle("chore", m.dockerMeta.context, m.version) &&
        r.pr.value.pr.head == (if mock then "mock/update" else "update") + "/" + m.name + "-" + m.version &&
        r.pr.value.pr.base == (if defaultBranchInput != "" then defaultBranchInput else currentBranch) &&
        r.pr.value.pr.labels == ["automerge"] && r.pr.value.pr.owner == owner && r.pr.value.pr.repo == repo &&
        commitInfo == Some(CommitInfoOf(run, m.sha, meta.sha))
    {
      InitializeHandler(meta);
      var info := GetVersionInfo(src);
      if info.Failed? {
        return CreateResult(versionInfo, currentMeta, originalMeta, false, Message(info.message));
      }
      if !HasVersionUpdate(versionInfo, originalMeta) {
        return CreateResult(versionInfo, currentMeta, originalMeta, true, NoPayload);
      }
      UpdateCurrentMeta();
      var pr := BuildPRData(mock, owner, repo, defaultBranchInput, currentBranch, read, run);
      r := CreateResult(versionInfo, currentMeta, originalMeta, true, PrPayload(pr));
    }
  }
}
