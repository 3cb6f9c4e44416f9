/**
 * `Git` (action/src/git.ts): the on-disk repository cache, the clone/update
 * command sequence, tag listing and the parsing of `git log`/`git diff`
 * output in `collectCommitInfo`.
 *
 * Commands are not executed: `ok(cmd)` says whether a command succeeds and
 * `run(q)` gives the stdout of a query, or `None` when it fails.
 */
module Git {
  import opened Options
  import opened Strings
  import Utils

  // ------------------------------------------------------------------ names

  predicate IsNameChar(c: char) { IsWordChar(c) || c == '-' }

  /** `context.replace(/[^\w-]/g, '_')` */
  function SanitizeContext(c: string): (r: string)
    ensures |r| == |c|
    ensures forall i :: 0 <= i < |r| ==> r[i] == (if IsNameChar(c[i]) then c[i] else '_')
  {
    MapChars(c, ch => if IsNameChar(ch) then ch else '_')
  }

  /** `.git` is dropped from the last segment only when something is left in front of it. */
  function StripGitSuffix(seg: string): (r: string)
  {
    if |seg| >= 5 && EndsWith(seg, ".git") then seg[..|seg| - 4] else seg
  }

  /** `replace(/[/+=]/g, '_')` */
  function MapBase64Symbols(s: string): string
  {
    MapChars(s, ch => if ch == '/' || ch == '+' || ch == '=' then '_' else ch)
  }

  /**
   * `getRepoName`: `/([^/]+)/([^/]+?)(?:\.git)?$` matches exactly when the
   * last two `/`-separated segments are non-empty and a `/` precedes them;
   * otherwise the base64 text of the URL (given by `base64`) is used.
   */
  function GetRepoName(url: string, base64: string -> string): string
  {
    var parts := Split(url, '/');
    var n := |parts|;
    if n >= 3 && parts[n - 2] != "" && parts[n - 1] != "" then
      parts[n - 2] + "-" + StripGitSuffix(parts[n - 1])
    else MapBase64Symbols(base64(url))
  }

  /** The cache directory for a URL: `repoName`, or `repoName_<sanitised context>`. */
  function CacheDirName(repoName: string, context: Option<string>): (r: string)
  {
    if Truthy(context) then repoName + "_" + SanitizeContext(context.value) else repoName
  }

  /** `path.join(cacheDir, dirName)` for a cache directory without a trailing `/`. */
  function RepoPath(cacheDir: string, dirName: string): string { cacheDir + "/" + dirName }

  predicate IsBase64Char(c: char) { (IsWordChar(c) && c != '_') || c == '+' || c == '/' || c == '=' }

  lemma SplitLast(a: string, sep: char, b: string)
    requires sep !in b
    ensures Split(a + [sep] + b, sep) == Split(a, sep) + [b]
    decreases |a|
  {
    if |a| == 0 {
      assert a + [sep] + b == [sep] + b;
      assert ([sep] + b)[1..] == b;
      SplitNoSep(b, sep);
    } else {
      var s := a + [sep] + b;
      assert s[0] == a[0] && s[1..] == a[1..] + [sep] + b;
      SplitLast(a[1..], sep, b);
    }
  }

  /** Neither form of the repository name contains `/`. */
  lemma GetRepoNameNoSlash(url: string, base64: string -> string)
    ensures '/' !in GetRepoName(url, base64)
  {
    var parts := Split(url, '/');
    SplitPieces(url, '/');
    var n := |parts|;
    if n >= 3 && parts[n - 2] != "" && parts[n - 1] != "" {
      var seg := parts[n - 1];
      assert '/' !in parts[n - 2] && '/' !in seg;
      var r := StripGitSuffix(seg);
      assert forall i :: 0 <= i < |r| ==> r[i] == seg[i];
      var out := parts[n - 2] + "-" + r;
      forall i | 0 <= i < |out| ensures out[i] != '/' {
        if i < |parts[n - 2]| { assert out[i] == parts[n - 2][i]; }
        else if i > |parts[n - 2]| { assert out[i] == r[i - |parts[n - 2]| - 1]; }
      }
    }
  }

  /** Given a base64 encoder, the fallback name uses only `[A-Za-z0-9_]`. */
  lemma GetRepoNameFallbackAlphabet(url: string, base64: string -> string)
    requires forall i :: 0 <= i < |base64(url)| ==> IsBase64Char(base64(url)[i])
    ensures var parts := Split(url, '/'); var n := |parts|;
      !(n >= 3 && parts[n - 2] != "" && parts[n - 1] != "") ==>
      AllWordChars(GetRepoName(url, base64))
  {
  }

  /** Any URL ending in `/owner/repo` is cached as `owner-repo`, with one `.git` dropped. */
  lemma GetRepoNameOfUrl(prefix: string, owner: string, seg: string, base64: string -> string)
    requires owner != "" && seg != "" && '/' !in owner && '/' !in seg
    ensures GetRepoName(prefix + "/" + owner + "/" + seg, base64) == owner + "-" + StripGitSuffix(seg)
  {
    SplitLast(prefix, '/', owner);
    SplitLast(prefix + "/" + owner, '/', seg);
  }

  /** `https://github.com/owner/repo.git` and `https://github.com/owner/repo` share the directory `owner-repo`. */
  lemma GetRepoNameOfCloneUrl(owner: string, repo: string, base64: string -> string)
    requires owner != "" && repo != "" && '/' !in owner && '/' !in repo && !EndsWith(repo, ".git")
    ensures GetRepoName("https://github.com/" + owner + "/" + repo + ".git", base64) == owner + "-" + repo
    ensures GetRepoName("https://github.com/" + owner + "/" + repo, base64) == owner + "-" + repo
  {
    GetRepoNameOfGitUrl(owner, repo, base64);
    GetRepoNameOfPlainUrl(owner, repo, base64);
  }

  lemma GetRepoNameOfGitUrl(owner: string, repo: string, base64: string -> string)
    requires owner != "" && repo != "" && '/' !in owner && '/' !in repo
    ensures GetRepoName("https://github.com/" + owner + "/" + repo + ".git", base64) == owner + "-" + repo
  {
    var pre := "https:/" + "/github.com";
    var seg := repo + ".git";
    GitSegment(repo);
    GetRepoNameOfUrl(pre, owner, seg, base64);
    GithubUrlShape(owner, seg);
    var head := "https://github.com/" + owner + "/";
    assert head + repo + ".git" == head + seg;
  }

  lemma GetRepoNameOfPlainUrl(owner: string, repo: string, base64: string -> string)
    requires owner != "" && repo != "" && '/' !in owner && '/' !in repo && !EndsWith(repo, ".git")
    ensures GetRepoName("https://github.com/" + owner + "/" + repo, base64) == owner + "-" + repo
  {
    GetRepoNameOfUrl("https:/" + "/github.com", owner, repo, base64);
    GithubUrlShape(owner, repo);
  }

  lemma GitSegment(repo: string)
    requires repo != "" && '/' !in repo
    ensures '/' !in repo + ".git" && StripGitSuffix(repo + ".git") == repo
  {
    var seg := repo + ".git";
    forall i | 0 <= i < |seg| ensures seg[i] != '/' {
      if i < |repo| { assert seg[i] == repo[i]; }
    }
    assert seg[..|seg| - 4] == repo;
    assert seg[|seg| - 4..] == ".git";
  }

  lemma GithubUrlShape(owner: string, seg: string)
    ensures "https://github.com/" + owner + "/" + seg == ("https:/" + "/github.com") + "/" + owner + "/" + seg
  {
  }

  /** The cache directory name is a single path component that keeps the repository name in front. */
  lemma CacheDirNameShape(url: string, context: Option<string>, base64: string -> string)
    ensures var name := GetRepoName(url, base64);
      var d := CacheDirName(name, context);
      '/' !in d && StartsWith(d, name) &&
      (Truthy(context) ==> |d| == |name| + 1 + |context.value| && d[|name|] == '_')
  {
    var name := GetRepoName(url, base64);
    GetRepoNameNoSlash(url, base64);
    var d := CacheDirName(name, context);
    if Truthy(context) {
      var sc := SanitizeContext(context.value);
      forall i | 0 <= i < |d| ensures d[i] != '/' {
        if i < |name| { assert d[i] == name[i]; }
        else if i > |name| { assert d[i] == sc[i - |name| - 1]; }
      }
      assert d[..|name|] == name;
    }
  }

  // ------------------------------------------------------------------ clone and update

  datatype CloneOptions = CloneOptions(branch: Option<string>, targetVersion: Option<string>, context: Option<string>)

  /** The commands the cache issues; `cwd` is the repository path except for `clone` and `rm`. */
  datatype Command =
    | Clone(branch: Option<string>, url: string, path: string) // `git clone [--branch b] url path`
    | Checkout(path: string, rev: string)                     // `git checkout rev`
    | Fetch(path: string)                                     // `git fetch --all --tags`
    | PullOrigin(path: string, remoteBranch: string)               // `git pull origin branch`
    | Pull(path: string)                                      // `git pull`
    | Remove(path: string)                                    // `rm -rf path`

  /** `targetVersion && targetVersion !== branch` */
  predicate NeedsCheckout(opts: CloneOptions)
  {
    Truthy(opts.targetVersion) && opts.targetVersion != opts.branch
  }

  function CloneCommand(url: string, path: string, opts: CloneOptions): Command
  {
    Clone(if Truthy(opts.branch) then opts.branch else None, url, path)
  }

  /** The optional checkout that ends both `cloneRepo` and `updateRepo`. */
  function CheckoutTail(path: string, opts: CloneOptions, ok: Command -> bool): (seq<Command>, bool)
  {
    if NeedsCheckout(opts) then
      var co := Checkout(path, opts.targetVersion.value);
      ([co], ok(co))
    else ([], true)
  }

  /** The commands `cloneRepo` issues and whether it returns normally. */
  function ClonePlan(url: string, path: string, opts: CloneOptions, ok: Command -> bool): (seq<Command>, bool)
  {
    var clone := CloneCommand(url, path, opts);
    if !ok(clone) then ([clone], false)
    else
      var tail := CheckoutTail(path, opts, ok);
      ([clone] + tail.0, tail.1)
  }

  /** The commands `updateRepo` issues and whether it returns normally. */
  function UpdatePlan(url: string, path: string, opts: CloneOptions, ok: Command -> bool): (seq<Command>, bool)
  {
    var fetch := Fetch(path);
    if !ok(fetch) then ([fetch], false)
    else if Truthy(opts.branch) then
      var co := Checkout(path, opts.branch.value);
      var pull := PullOrigin(path, opts.branch.value);
      if !ok(co) then ([fetch, co], false)
      else if !ok(pull) then ([fetch, co, pull], false)
      else
        var tail := CheckoutTail(path, opts, ok);
        ([fetch, co, pull] + tail.0, tail.1)
    else
      var pull := Pull(path);
      if ok(pull) then
        var tail := CheckoutTail(path, opts, ok);
        ([fetch, pull] + tail.0, tail.1)
      else
        var rm := Remove(path);
        if !ok(rm) then ([fetch, pull, rm], false)
        else
          var again := ClonePlan(url, path, opts, ok);
          ([fetch, pull, rm] + again.0, again.1)
  }

  /**
   * The commands `cloneOrUpdateRepo` issues from a cache holding `repos`,
   * and whether it returns normally: an update of a cached directory, a
   * clone otherwise.
   */
  function RepoPlan(cacheDir: string, repos: map<string, string>, url: string, opts: CloneOptions,
                    ok: Command -> bool, base64: string -> string): (seq<Command>, bool)
  {
    var path := RepoPath(cacheDir, CacheDirName(GetRepoName(url, base64), opts.context));
    if path in repos then UpdatePlan(url, path, opts, ok) else ClonePlan(url, path, opts, ok)
  }

  /** When every command succeeds, so does `cloneOrUpdateRepo`, whatever the cache holds. */
  lemma RepoPlanSucceeds(cacheDir: string, repos: map<string, string>, url: string, opts: CloneOptions,
                         ok: Command -> bool, base64: string -> string)
    requires forall c :: ok(c)
    ensures RepoPlan(cacheDir, repos, url, opts, ok, base64).1
  {
  }

  /** The cache after a command: a successful clone creates the directory, a successful `rm` deletes it. */
  function Effect(repos: map<string, string>, cmd: Command, ok: Command -> bool): map<string, string>
  {
    if !ok(cmd) then repos
    else match cmd
      case Clone(_, url, path) => repos[path := url]
      case Remove(path) => repos - {path}
      case _ => repos
  }

  function EffectAll(repos: map<string, string>, cmds: seq<Command>, ok: Command -> bool): map<string, string>
    decreases |cmds|
  {
    if |cmds| == 0 then repos else EffectAll(Effect(repos, cmds[0], ok), cmds[1..], ok)
  }

  lemma {:induction false} EffectAllAppend(repos: map<string, string>, a: seq<Command>, b: seq<Command>, ok: Command -> bool)
    ensures EffectAll(repos, a + b, ok) == EffectAll(EffectAll(repos, a, ok), b, ok)
    decreases |a|
  {
    if |a| > 0 {
      assert (a + b)[0] == a[0] && (a + b)[1..] == a[1..] + b;
      EffectAllAppend(Effect(repos, a[0], ok), a[1..], b, ok);
    } else {
      assert a + b == b;
    }
  }

  /** Commands that neither create nor delete a directory leave the cache as it is. */
  lemma {:induction false} EffectAllKeeps(repos: map<string, string>, cmds: seq<Command>, ok: Command -> bool)
    requires forall k :: 0 <= k < |cmds| ==> !cmds[k].Clone? && !cmds[k].Remove?
    ensures EffectAll(repos, cmds, ok) == repos
    decreases |cmds|
  {
    if |cmds| > 0 {
      EffectAllKeeps(repos, cmds[1..], ok);
    }
  }

  /**
   * `cloneRepo` passes `--branch` exactly when a branch is given, checks out
   * `targetVersion` only after a successful clone and only when it differs
   * from the branch, and returns normally iff every command succeeded.
   */
  lemma ClonePlanShape(url: string, path: string, opts: CloneOptions, ok: Command -> bool)
    ensures var (cmds, success) := ClonePlan(url, path, opts, ok);
      1 <= |cmds| <= 2 && cmds[0] == Clone(if Truthy(opts.branch) then opts.branch else None, url, path) &&
      (|cmds| == 2 <==> ok(cmds[0]) && NeedsCheckout(opts)) &&
      (|cmds| == 2 ==> cmds[1] == Checkout(path, opts.targetVersion.value)) &&
      (success <==> forall k :: 0 <= k < |cmds| ==> ok(cmds[k]))
  {
  }

  /** A successful `cloneRepo` leaves the directory in the cache, cloned from `url`. */
  lemma ClonePlanEffect(repos: map<string, string>, url: string, path: string, opts: CloneOptions, ok: Command -> bool)
    ensures var (cmds, success) := ClonePlan(url, path, opts, ok);
      success ==> path in EffectAll(repos, cmds, ok) && EffectAll(repos, cmds, ok)[path] == url
  {
    var (cmds, success) := ClonePlan(url, path, opts, ok);
    if success {
      var r1 := repos[path := url];
      assert EffectAll(repos, cmds, ok) == EffectAll(r1, cmds[1..], ok);
      EffectAllKeeps(r1, cmds[1..], ok);
    }
  }

  /**
   * `updateRepo` always fetches first. With a branch it never deletes or
   * re-clones; without one, a failed `pull` is followed by `rm` and then by
   * at most one clone, which comes right after it. It fails only on a
   * failing last command.
   */
  lemma UpdatePlanShape(url: string, path: string, opts: CloneOptions, ok: Command -> bool)
    ensures var (cmds, success) := UpdatePlan(url, path, opts, ok);
      |cmds| >= 1 && cmds[0] == Fetch(path) &&
      (forall k :: 0 <= k < |cmds| && cmds[k].Clone? ==>
        k == 3 && cmds[..3] == [Fetch(path), Pull(path), Remove(path)]) &&
      (Remove(path) in cmds <==> !Truthy(opts.branch) && ok(Fetch(path)) && !ok(Pull(path))) &&
      (Truthy(opts.branch) ==> forall k :: 0 <= k < |cmds| ==> !cmds[k].Clone?) &&
      (!success ==> !ok(cmds[|cmds| - 1]))
  {
    var (cmds, success) := UpdatePlan(url, path, opts, ok);
    ClonePlanShape(url, path, opts, ok);
    var again := ClonePlan(url, path, opts, ok);
    var tail := CheckoutTail(path, opts, ok);
    if ok(Fetch(path)) && !Truthy(opts.branch) && !ok(Pull(path)) && ok(Remove(path)) {
      assert cmds == [Fetch(path), Pull(path), Remove(path)] + again.0;
      assert cmds[|cmds| - 1] == again.0[|again.0| - 1];
      assert cmds[..3] == [Fetch(path), Pull(path), Remove(path)];
      assert forall k :: 3 < k < |cmds| ==> cmds[k] == again.0[k - 3];
    }
  }

  /** After a successful update the directory is still (or again) in the cache. */
  lemma UpdatePlanEffect(repos: map<string, string>, url: string, path: string, opts: CloneOptions, ok: Command -> bool)
    requires path in repos
    ensures var (cmds, success) := UpdatePlan(url, path, opts, ok);
      success ==> path in EffectAll(repos, cmds, ok)
  {
    var (cmds, success) := UpdatePlan(url, path, opts, ok);
    if success {
      if Truthy(opts.branch) || ok(Pull(path)) {
        EffectAllKeeps(repos, cmds, ok);
      } else {
        var pre := [Fetch(path), Pull(path), Remove(path)];
        var again := ClonePlan(url, path, opts, ok);
        assert cmds == pre + again.0;
        EffectAllAppend(repos, pre, again.0, ok);
        ClonePlanEffect(EffectAll(repos, pre, ok), url, path, opts, ok);
      }
    }
  }

  /** The repository cache: directories under `cacheDir` and the commands issued so far. */
  class RepoCache {
    const cacheDir: string
    var repos: map<string, string>
    var log: seq<Command>

    constructor(cacheDir: string, existing: map<string, string>)
      ensures this.cacheDir == cacheDir && repos == existing && log == []
    {
      this.cacheDir := cacheDir;
      repos := existing;
      log := [];
    }

    /** Issue one command. */
    method Exec(cmd: Command, ok: Command -> bool) returns (success: bool)
      modifies this
      ensures success == ok(cmd)
      ensures log == old(log) + [cmd]
      ensures repos == Effect(old(repos), cmd, ok)
    {
      log := log + [cmd];
      success := ok(cmd);
      repos := Effect(repos, cmd, ok);
    }

    method CheckoutVersion(path: string, opts: CloneOptions, ok: Command -> bool) returns (success: bool)
      modifies this
      ensures log == old(log) + CheckoutTail(path, opts, ok).0
      ensures success == CheckoutTail(path, opts, ok).1
      ensures repos == EffectAll(old(repos), CheckoutTail(path, opts, ok).0, ok)
    {
      success := true;
      if NeedsCheckout(opts) {
        success := Exec(Checkout(path, opts.targetVersion.value), ok);
      }
    }

    /** `cloneRepo(url, path, options)`: `false` stands for the re-thrown error. */
    method CloneRepo(url: string, path: string, opts: CloneOptions, ok: Command -> bool) returns (success: bool)
      modifies this
      ensures log == old(log) + ClonePlan(url, path, opts, ok).0
      ensures success == ClonePlan(url, path, opts, ok).1
      ensures repos == EffectAll(old(repos), ClonePlan(url, path, opts, ok).0, ok)
    {
      var branch := if Truthy(opts.branch) then opts.branch else None;
      success := Exec(Clone(branch, url, path), ok);
      if !success {
        return;
      }
      ghost var cloned := repos;
      success := CheckoutVersion(path, opts, ok);
      EffectAllKeeps(cloned, CheckoutTail(path, opts, ok).0, ok);
    }

    /** `updateRepo(url, path, options)`: `false` stands for the re-thrown error. */
    method UpdateRepo(url: string, path: string, opts: CloneOptions, ok: Command -> bool) returns (success: bool)
      modifies this
      ensures log == old(log) + UpdatePlan(url, path, opts, ok).0
      ensures success == UpdatePlan(url, path, opts, ok).1
      ensures repos == EffectAll(old(repos), UpdatePlan(url, path, opts, ok).0, ok)
    {
      ghost var plan := UpdatePlan(url, path, opts, ok).0;
      success := Exec(Fetch(path), ok);
      if !success {
        EffectAllKeeps(old(repos), plan, ok);
        return;
      }
      if Truthy(opts.branch) {
        success := Exec(Checkout(path, opts.branch.value), ok);
        if !success {
          EffectAllKeeps(old(repos), plan, ok);
          return;
        }
        success := Exec(PullOrigin(path, opts.branch.value), ok);
        if !success {
          EffectAllKeeps(old(repos), plan, ok);
          return;
        }
      } else {
        var pulled := Exec(Pull(path), ok);
        if !pulled {
          var pre := [Fetch(path), Pull(path), Remove(path)];
          EffectAllKeeps(old(repos), pre[..2], ok);
          EffectAllAppend(old(repos), pre[..2], [Remove(path)], ok);
          assert pre[..2] + [Remove(path)] == pre;
          success := Exec(Remove(path), ok);
          if !success {
            return;
          }
          success := CloneRepo(url, path, opts, ok);
          EffectAllAppend(old(repos), pre, ClonePlan(url, path, opts, ok).0, ok);
          return;
        }
      }
      success := CheckoutVersion(path, opts, ok);
      EffectAllKeeps(old(repos), plan, ok);
    }

    /**
     * `cloneOrUpdateRepo(url, options)`: updates an existing directory,
     * clones otherwise, and returns the repository path, or `None` for the
     * re-thrown error.
     */
    method CloneOrUpdateRepo(url: string, opts: CloneOptions, ok: Command -> bool, base64: string -> string)
      returns (r: Option<string>)
      modifies this
      ensures var path := RepoPath(cacheDir, CacheDirName(GetRepoName(url, base64), opts.context));
        var plan := RepoPlan(cacheDir, old(repos), url, opts, ok, base64);
        plan == (if path in old(repos) then UpdatePlan(url, path, opts, ok) else ClonePlan(url, path, opts, ok)) &&
        log == old(log) + plan.0 &&
        repos == EffectAll(old(repos), plan.0, ok) &&
        (r.Some? <==> plan.1) &&
        (r.Some? ==> r.value == path && path in repos)
    {
      var path := RepoPath(cacheDir, CacheDirName(GetRepoName(url, base64), opts.context));
      var success;
      if path in repos {
        UpdatePlanEffect(repos, url, path, opts, ok);
        success := UpdateRepo(url, path, opts, ok);
      } else {
        ClonePlanEffect(repos, url, path, opts, ok);
        success := CloneRepo(url, path, opts, ok);
      }
      r := if success then Some(path) else None;
    }
  }

  // ------------------------------------------------------------------ tags

  /** `getAllTags`: the non-empty lines of the trimmed output, in output order. */
  function GetAllTags(stdout: string): (tags: seq<string>)
    ensures forall k :: 0 <= k < |tags| ==> tags[k] != "" && '\n' !in tags[k]
  {
    var lines := Split(Trim(stdout), '\n');
    SplitPieces(Trim(stdout), '\n');
    assert forall x :: x in lines ==> '\n' !in x;
    NonEmpty(lines)
  }

  lemma {:induction false} JoinEnds(parts: seq<string>, sep: string)
    requires |parts| >= 1 && forall k :: 0 <= k < |parts| ==> parts[k] != ""
    ensures var j := Join(parts, sep); |j| > 0 && j[0] == parts[0][0] && j[|j| - 1] == parts[|parts| - 1][|parts[|parts| - 1]| - 1]
    decreases |parts|
  {
    if |parts| > 1 {
      if |parts| > 2 { JoinEnds(parts[1..], sep); }
      else { assert Join(parts[1..], sep) == parts[1]; }
    }
  }

  /** Tag names printed one per line by `git tag` are listed back unchanged and in order. */
  lemma GetAllTagsOfLines(tags: seq<string>)
    requires forall k :: 0 <= k < |tags| ==> tags[k] != "" && '\n' !in tags[k] && IsTrimmed(tags[k])
    ensures GetAllTags(Join(tags, "\n")) == tags
  {
    if |tags| == 0 {
      GetAllTagsNone(tags);
    } else {
      GetAllTagsSome(tags);
    }
  }

  lemma GetAllTagsNone(tags: seq<string>)
    requires |tags| == 0
    ensures GetAllTags(Join(tags, "\n")) == tags
  {
    assert Join(tags, "\n") == "";
    GetAllTagsEmpty();
  }

  lemma GetAllTagsSome(tags: seq<string>)
    requires |tags| >= 1 && forall k :: 0 <= k < |tags| ==> tags[k] != "" && '\n' !in tags[k] && IsTrimmed(tags[k])
    ensures GetAllTags(Join(tags, "\n")) == tags
  {
    TrimmedLines(tags);
    SplitJoinLines(tags);
    NonEmptyOfNonEmpty(tags);
    assert GetAllTags(Join(tags, "\n")) == NonEmpty(Split(Trim(Join(tags, "\n")), '\n'));
  }

  lemma TrimmedLines(tags: seq<string>)
    requires |tags| >= 1 && forall k :: 0 <= k < |tags| ==> tags[k] != "" && IsTrimmed(tags[k])
    ensures Trim(Join(tags, "\n")) == Join(tags, "\n")
  {
    JoinEnds(tags, "\n");
    TrimOfTrimmed(Join(tags, "\n"));
  }

  lemma GetAllTagsEmpty()
    ensures GetAllTags("") == []
  {
    assert Trim("") == "" by { TrimOfTrimmed(""); }
    assert Split("", '\n') == [""];
  }

  lemma SplitJoinLines(tags: seq<string>)
    requires |tags| >= 1 && forall k :: 0 <= k < |tags| ==> '\n' !in tags[k]
    ensures Split(Join(tags, "\n"), '\n') == tags
  {
    assert "\n" == ['\n'];
    SplitJoin(tags, '\n');
  }

  // ------------------------------------------------------------------ commit info

  datatype CommitInfo = CommitInfo(
    commitMessage: string,
    commitAuthor: string,
    commitDate: string,
    changedFiles: nat,
    additions: nat,
    deletions: nat,
    recentCommits: seq<string>)

  /** The read-only git queries `collectCommitInfo` runs. */
  datatype Query =
    | Subject(sha: string)        // `git log -1 --format=%s sha`
    | Author(sha: string)         // `git log -1 --format="%an <%ae>" sha`
    | Date(sha: string)           // `git log -1 --format=%ci sha`
    | NameOnly(range: string)     // `git diff --name-only range`
    | ShortStat(range: string)    // `git diff --shortstat range`
    | Oneline(range: string)      // `git log --oneline range`

  /** `oldSha ? `${oldSha}..${sha}` : sha` */
  function DiffRange(sha: string, oldSha: Option<string>): string
  {
    if Truthy(oldSha) then oldSha.value + ".." + sha else sha
  }

  /** Every query `collectCommitInfo` runs succeeds. */
  predicate Answered(run: Query -> Option<string>, sha: string, range: string)
  {
    run(Subject(sha)).Some? && run(Author(sha)).Some? && run(Date(sha)).Some? &&
    run(NameOnly(range)).Some? && run(ShortStat(range)).Some? && run(Oneline(range)).Some?
  }

  /** Number of lines of the trimmed `--name-only` output, 0 when it is empty. */
  function ChangedFileCount(nameOnly: string): (n: nat)
    ensures Trim(nameOnly) == "" <==> n == 0
  {
    var t := Trim(nameOnly);
    if t == "" then 0 else |Split(t, '\n')|
  }

  /** `N insertion(+)`, `N insertions(+)` and the same for `deletion`/`-`, right after the digits. */
  predicate CountSuffix(rest: string, word: string, sign: char)
  {
    StartsWith(rest, " " + word + "(" + [sign] + ")") || StartsWith(rest, " " + word + "s(" + [sign] + ")")
  }

  /** The regex `(\d+) word s?\(sign\)` matches at the start of `s`. */
  predicate CountHere(s: string, word: string, sign: char)
  {
    |s| > 0 && IsDigit(s[0]) && CountSuffix(s[|DigitRun(s)|..], word, sign)
  }

  /** The number captured by the leftmost match of `(\d+) word s?\(sign\)`. */
  function FirstCount(s: string, word: string, sign: char): Option<nat>
    decreases |s|
  {
    if |s| == 0 then None
    else if CountHere(s, word, sign) then Some(DigitsValue(DigitRun(s)))
    else FirstCount(s[1..], word, sign)
  }

  /** `recentCommits`: at most ten non-empty lines of the trimmed `--oneline` output. */
  function RecentCommits(oneline: string): (r: seq<string>)
    ensures |r| <= 10 && forall k :: 0 <= k < |r| ==> r[k] != ""
  {
    var t := Trim(oneline);
    if t == "" then [] else Prefix(NonEmpty(Split(t, '\n')), 10)
  }

  /**
   * The record `collectCommitInfo` builds from the answers to its queries:
   * the log fields trimmed, the file count, the two counts parsed from the
   * trimmed `--shortstat` line and the recent commits.
   */
  function CollectedInfo(run: Query -> Option<string>, sha: string, range: string): CommitInfo
    requires Answered(run, sha, range)
  {
    var stat := Trim(run(ShortStat(range)).value);
    CommitInfo(
      Trim(run(Subject(sha)).value), Trim(run(Author(sha)).value), Trim(run(Date(sha)).value),
      ChangedFileCount(run(NameOnly(range)).value),
      FirstCount(stat, "insertion", '+').GetOr(0),
      FirstCount(stat, "deletion", '-').GetOr(0),
      RecentCommits(run(Oneline(range)).value))
  }

  /** What `collectCommitInfo` returns, as a value. */
  function CommitInfoResult(sha: string, oldSha: Option<string>, run: Query -> Option<string>): Option<CommitInfo>
  {
    var range := DiffRange(sha, oldSha);
    if oldSha == Some(sha) || !Answered(run, sha, range) then None else Some(CollectedInfo(run, sha, range))
  }

  /**
   * `collectCommitInfo(repoPath, sha, oldSha)`: nothing when the SHA is
   * unchanged or any query fails; otherwise the trimmed log fields and the
   * counts parsed from the diff output.
   */
  method CollectCommitInfo(sha: string, oldSha: Option<string>, run: Query -> Option<string>)
    returns (info: Option<CommitInfo>)
    ensures info == CommitInfoResult(sha, oldSha, run)
    ensures info.None? <==> oldSha == Some(sha) || !Answered(run, sha, DiffRange(sha, oldSha))
    ensures info.Some? ==> info.value == CollectedInfo(run, sha, DiffRange(sha, oldSha))
  {
    if oldSha == Some(sha) {
      return None;
    }
    var range := DiffRange(sha, oldSha);
    if run(Subject(sha)).None? || run(Author(sha)).None? || run(Date(sha)).None?
      || run(NameOnly(range)).None? || run(ShortStat(range)).None?
    {
      return None;
    }
    var message, author, date := LogFields(run(Subject(sha)).value, run(Author(sha)).value, run(Date(sha)).value);
    var diffStat := Trim(run(ShortStat(range)).value);
    var changedFiles := ChangedFileCount(run(NameOnly(range)).value);
    var additions, deletions := DiffCounts(diffStat);
    if run(Oneline(range)).None? {
      return None;
    }
    var recent := RecentCommits(run(Oneline(range)).value);
    info := Some(CommitInfo(message, author, date, changedFiles, additions, deletions, recent));
  }

  /** The three log fields, trimmed when read and trimmed again when stored. */
  method LogFields(subject: string, author: string, date: string) returns (m: string, a: string, d: string)
    ensures m == Trim(subject) && a == Trim(author) && d == Trim(date)
  {
    var m0, a0, d0 := Trim(subject), Trim(author), Trim(date);
    TrimOfTrimmedTrim(subject);
    TrimOfTrimmedTrim(author);
    TrimOfTrimmedTrim(date);
    m, a, d := Trim(m0), Trim(a0), Trim(d0);
  }

  /** The insertion and deletion counts of a trimmed `--shortstat` line, 0 when absent or when the line is empty. */
  method DiffCounts(diffStat: string) returns (additions: nat, deletions: nat)
    ensures additions == FirstCount(diffStat, "insertion", '+').GetOr(0)
    ensures deletions == FirstCount(diffStat, "deletion", '-').GetOr(0)
  {
    additions := 0;
    deletions := 0;
    if diffStat != "" {
      additions := FirstCount(diffStat, "insertion", '+').GetOr(0);
      deletions := FirstCount(diffStat, "deletion", '-').GetOr(0);
    }
  }

  /** Trimming twice is trimming once. */
  lemma TrimOfTrimmedTrim(s: string)
    ensures Trim(Trim(s)) == Trim(s)
  {
    TrimIsTrimmed(s);
    TrimOfTrimmed(Trim(s));
  }

  /** The number of file names is one more than the number of line breaks between them. */
  lemma ChangedFileCountLines(nameOnly: string)
    requires Trim(nameOnly) != ""
    ensures ChangedFileCount(nameOnly) == CountChar(Trim(nameOnly), '\n') + 1
  {
    SplitPieces(Trim(nameOnly), '\n');
  }

  // ------------------------------------------------------------------ shortstat round trip

  /** `N word` or `N words`, as git prints a count. */
  function Counted(n: nat, word: string): string
  {
    NatToString(n) + " " + word + (if n == 1 then "" else "s")
  }

  /** The `--shortstat` line git prints (trimmed), with the zero parts left out. */
  function ShortStatLine(files: nat, adds: nat, dels: nat): string
  {
    Counted(files, "file") + " changed" + InsertionPart(adds) + DeletionPart(dels)
  }

  predicate NoDigits(s: string) { forall i :: 0 <= i < |s| ==> !IsDigit(s[i]) }

  /** Skipping a prefix in which the pattern never starts. */
  lemma {:induction false} FirstCountSkip(p: string, q: string, word: string, sign: char)
    requires forall k :: 0 <= k < |p| ==> !CountHere((p + q)[k..], word, sign)
    ensures FirstCount(p + q, word, sign) == FirstCount(q, word, sign)
    decreases |p|
  {
    if |p| > 0 {
      assert !CountHere((p + q)[0..], word, sign);
      assert (p + q)[0..] == p + q;
      assert (p + q)[1..] == p[1..] + q;
      forall k | 0 <= k < |p[1..]| ensures !CountHere((p[1..] + q)[k..], word, sign) {
        assert (p[1..] + q)[k..] == (p + q)[k + 1..];
      }
      FirstCountSkip(p[1..], q, word, sign);
    } else {
      assert p + q == q;
    }
  }

  lemma NoDigitsNoMatch(p: string, q: string, word: string, sign: char)
    requires NoDigits(p)
    ensures forall k :: 0 <= k < |p| ==> !CountHere((p + q)[k..], word, sign)
  {
    forall k | 0 <= k < |p| ensures !CountHere((p + q)[k..], word, sign) {
      assert (p + q)[k..][0] == p[k];
    }
  }

  /** Inside `N w...` followed by another word, the count regex for `word` does not start. */
  lemma CountedNoMatch(n: nat, w: string, q: string, word: string, sign: char)
    requires |w| > 0 && |word| > 0 && w[0] != word[0] && NoDigits(w)
    ensures forall k :: 0 <= k < |Counted(n, w)| ==> !CountHere((Counted(n, w) + q)[k..], word, sign)
  {
    var d := NatToString(n);
    var tail := " " + w + (if n == 1 then "" else "s");
    var s := Counted(n, w) + q;
    assert s == d + (tail + q);
    forall k | 0 <= k < |Counted(n, w)| ensures !CountHere(s[k..], word, sign) {
      if k < |d| {
        DigitsNoMatch(d, tail + q, k, w, word, sign);
        SliceConcat(d, tail + q, k);
      } else {
        SliceConcat(d, tail + q, |d|);
        assert s[|d|..] == tail + q;
        assert s[k..] == (tail + q)[k - |d|..];
        TailNoMatch(tail + q, k - |d|, w, n, word, sign);
      }
    }
  }

  /** Starting inside the digits of `N`, the digits run up to the space before `w`, which does not begin `word`. */
  lemma DigitsNoMatch(d: string, rest: string, k: nat, w: string, word: string, sign: char)
    requires k < |d| && |w| > 0 && |word| > 0 && w[0] != word[0]
    requires AllDigits(d)
    requires |rest| > 1 && rest[0] == ' ' && rest[1] == w[0]
    ensures !CountHere(d[k..] + rest, word, sign)
  {
    Utils.DigitRunConcat(d[k..], rest);
    assert (d[k..] + rest)[|d[k..]|..] == rest;
    assert (" " + word + "(" + [sign] + ")")[1] == word[0];
    assert (" " + word + "s(" + [sign] + ")")[1] == word[0];
  }

  /** Starting in ` w` or the plural `s`, there is no digit to begin the count. */
  lemma TailNoMatch(s: string, k: nat, w: string, n: nat, word: string, sign: char)
    requires NoDigits(w)
    requires |s| >= |" " + w + (if n == 1 then "" else "s")| > k
    requires s[..|" " + w + (if n == 1 then "" else "s")|] == " " + w + (if n == 1 then "" else "s")
    ensures !CountHere(s[k..], word, sign)
  {
    var tail := " " + w + (if n == 1 then "" else "s");
    assert s[k..][0] == tail[k];
    if k == 0 { assert tail[0] == ' '; }
    else if k <= |w| { assert tail[k] == w[k - 1]; }
    else { assert tail[k] == 's'; }
  }

  /** At the start of `N word(s)(sign)` the count regex matches and captures `N`. */
  lemma CountedMatch(n: nat, word: string, sign: char, q: string)
    ensures FirstCount(Counted(n, word) + (Paren(sign) + q), word, sign) == Some(n)
  {
    var d := NatToString(n);
    var tail := " " + word + (if n == 1 then "" else "s") + "(" + [sign] + ")" + q;
    var s := Counted(n, word) + (Paren(sign) + q);
    assert s == d + tail;
    Utils.DigitRunConcat(d, tail);
    assert s[|d|..] == tail;
    if n == 1 {
      assert StartsWith(tail, " " + word + "(" + [sign] + ")");
    } else {
      assert StartsWith(tail, " " + word + "s(" + [sign] + ")");
    }
    assert CountHere(s, word, sign);
    DigitsValueOfNatToString(n);
  }

  /** A count of another word is passed over. */
  lemma CountedThen(n: nat, w: string, q: string, word: string, sign: char)
    requires |w| > 0 && |word| > 0 && w[0] != word[0] && NoDigits(w)
    ensures FirstCount(Counted(n, w) + q, word, sign) == FirstCount(q, word, sign)
  {
    CountedNoMatch(n, w, q, word, sign);
    FirstCountSkip(Counted(n, w), q, word, sign);
  }

  /** Text without digits is passed over. */
  lemma PlainThen(p: string, q: string, word: string, sign: char)
    requires NoDigits(p)
    ensures FirstCount(p + q, word, sign) == FirstCount(q, word, sign)
  {
    NoDigitsNoMatch(p, q, word, sign);
    FirstCountSkip(p, q, word, sign);
  }

  lemma {:induction false} NoDigitsNone(p: string, word: string, sign: char)
    requires NoDigits(p)
    ensures FirstCount(p, word, sign) == None
    decreases |p|
  {
    if |p| > 0 {
      NoDigitsNone(p[1..], word, sign);
    }
  }

  function Paren(sign: char): string { "(" + [sign] + ")" }

  /** The literal pieces of a `--shortstat` line hold no digits, and its three words start differently. */
  lemma ShortStatLiterals()
    ensures NoDigits(", ") && NoDigits(" changed") && NoDigits(Paren('+')) && NoDigits(Paren('-'))
    ensures NoDigits("file") && NoDigits("insertion") && NoDigits("deletion")
    ensures |"file"| > 0 && |"insertion"| > 0 && |"deletion"| > 0
    ensures "file"[0] != "insertion"[0] && "file"[0] != "deletion"[0] && "insertion"[0] != "deletion"[0]
  {
  }

  function InsertionPart(adds: nat): string
  {
    if adds > 0 then ", " + (Counted(adds, "insertion") + Paren('+')) else ""
  }

  function DeletionPart(dels: nat): string
  {
    if dels > 0 then ", " + (Counted(dels, "deletion") + Paren('-')) else ""
  }

  lemma ShortStatParts(files: nat, adds: nat, dels: nat)
    ensures ShortStatLine(files, adds, dels)
      == Counted(files, "file") + (" changed" + (InsertionPart(adds) + DeletionPart(dels)))
  {
  }

  lemma NoInsertionInDeletionPart(dels: nat)
    ensures FirstCount(DeletionPart(dels), "insertion", '+') == None
  {
    ShortStatLiterals();
    if dels > 0 {
      var dc := Counted(dels, "deletion");
      var p := Paren('-');
      assert DeletionPart(dels) == ", " + (dc + p);
      PlainThen(", ", dc + p, "insertion", '+');
      CountedThen(dels, "deletion", p, "insertion", '+');
      NoDigitsNone(p, "insertion", '+');
    }
  }

  lemma InsertionPartCount(adds: nat, rest: string)
    ensures FirstCount(InsertionPart(adds) + rest, "insertion", '+')
      == if adds > 0 then Some(adds) else FirstCount(rest, "insertion", '+')
  {
    ShortStatLiterals();
    if adds > 0 {
      var c := Counted(adds, "insertion");
      var after := c + (Paren('+') + rest);
      assert InsertionPart(adds) + rest == ", " + after;
      PlainThen(", ", after, "insertion", '+');
      CountedMatch(adds, "insertion", '+', rest);
    } else {
      assert InsertionPart(adds) + rest == rest;
    }
  }

  lemma InsertionPartSkipped(adds: nat, rest: string)
    ensures FirstCount(InsertionPart(adds) + rest, "deletion", '-') == FirstCount(rest, "deletion", '-')
  {
    ShortStatLiterals();
    if adds > 0 {
      var ac := Counted(adds, "insertion");
      var p := Paren('+');
      assert InsertionPart(adds) + rest == ", " + (ac + (p + rest));
      PlainThen(", ", ac + (p + rest), "deletion", '-');
      CountedThen(adds, "insertion", p + rest, "deletion", '-');
      PlainThen(p, rest, "deletion", '-');
    } else {
      assert InsertionPart(adds) + rest == rest;
    }
  }

  lemma DeletionPartCount(dels: nat)
    ensures FirstCount(DeletionPart(dels), "deletion", '-').GetOr(0) == dels
  {
    ShortStatLiterals();
    if dels > 0 {
      var after := Counted(dels, "deletion") + (Paren('-') + "");
      assert DeletionPart(dels) == ", " + after;
      PlainThen(", ", after, "deletion", '-');
      CountedMatch(dels, "deletion", '-', "");
    }
  }

  /**
   * Parsing a `--shortstat` line git prints recovers the insertion and
   * deletion counts, with 0 for a part git leaves out.
   */
  lemma ShortStatRoundTrip(files: nat, adds: nat, dels: nat)
    ensures FirstCount(ShortStatLine(files, adds, dels), "insertion", '+').GetOr(0) == adds
    ensures FirstCount(ShortStatLine(files, adds, dels), "deletion", '-').GetOr(0) == dels
  {
    ShortStatLiterals();
    var rest := InsertionPart(adds) + DeletionPart(dels);
    ShortStatParts(files, adds, dels);
    CountedThen(files, "file", " changed" + rest, "insertion", '+');
    CountedThen(files, "file", " changed" + rest, "deletion", '-');
    PlainThen(" changed", rest, "insertion", '+');
    PlainThen(" changed", rest, "deletion", '-');
    InsertionPartCount(adds, DeletionPart(dels));
    NoInsertionInDeletionPart(dels);
    InsertionPartSkipped(adds, DeletionPart(dels));
    DeletionPartCount(dels);
  }

  /** When git answers `--shortstat` with the line it prints, the record carries its counts. */
  lemma CollectedInfoCounts(run: Query -> Option<string>, sha: string, range: string, files: nat, adds: nat, dels: nat)
    requires Answered(run, sha, range)
    requires Trim(run(ShortStat(range)).value) == ShortStatLine(files, adds, dels)
    ensures CollectedInfo(run, sha, range).additions == adds
    ensures CollectedInfo(run, sha, range).deletions == dels
  {
    ShortStatRoundTrip(files, adds, dels);
  }
}
