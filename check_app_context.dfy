/**
 * `CheckAppContext` (action/src/context/checkAppContext.ts): checks every
 * variant of one application, rewrites the application's files with the
 * new versions and assembles the pull-request data.
 *
 * The working tree is the oracle `read` (`readFile` from action/src/file.ts,
 * `None` when it fails) and `JSON.stringify(meta, null, 2)` is the oracle
 * `stringify`. `path.join(context, file)` is modelled as `context + "/" + file`.
 */
module CheckApp {
  import opened Options
  import opened Strings
  import opened Schema
  import opened Assoc
  import Template
  import Variants
  import Git
  import Lists

  /** `ProcessedFile` of action/src/types/index.ts. */
  datatype ProcessedFile = ProcessedFile(path: string, content: string, originalContent: string, changed: bool)

  // ------------------------------------------------------------------ meta.json

  /**
   * Line 125 as written: `{ version, sha, ...old }`. The spread copies the old
   * record's own `version`/`sha` over the new ones whenever they are present,
   * even when they are empty.
   */
  function MergeAsWritten(v: ImageVariant, version: string, sha: string): ImageVariant
  {
    if !Truthy(v.version) || !Truthy(v.sha) then
      v.(version := if v.version.Some? then v.version else Some(version),
         sha := if v.sha.Some? then v.sha else Some(sha))
    else v.(version := Some(version), sha := Some(sha))
  }

  /** What lines 122-130 evidently intend: the variant records the result's version and SHA. */
  function MergeVariant(v: ImageVariant, version: string, sha: string): ImageVariant
  {
    v.(version := Some(version), sha := Some(sha))
  }

  /** The variant record of one result, in the copy of the meta; a missing name throws and is caught. */
  function MergeResult(meta: Meta, r: Variants.CheckResult): Meta
  {
    var prior := Get(meta.variants, r.variantName);
    if prior.None? then meta
    else meta.(variants := Put(meta.variants, r.variantName, MergeVariant(prior.value, r.version, r.sha)))
  }

  /** The copy of the meta after every result has been recorded, in order. */
  function UpdatedMeta(meta: Meta, results: seq<Variants.CheckResult>): Meta
    decreases |results|
  {
    if |results| == 0 then meta
    else MergeResult(UpdatedMeta(meta, results[..|results| - 1]), results[|results| - 1])
  }

  /** The last result reported for a variant name. */
  function LastFor(results: seq<Variants.CheckResult>, name: string): Option<Variants.CheckResult>
    decreases |results|
  {
    if |results| == 0 then None
    else if results[|results| - 1].variantName == name then Some(results[|results| - 1])
    else LastFor(results[..|results| - 1], name)
  }

  // ------------------------------------------------------------------ rewritten files

  /** `processFiles.filter(file => file !== 'meta.json')` */
  function WithoutMetaJson(files: seq<string>): (r: seq<string>)
    ensures forall f :: f in r <==> f in files && f != "meta.json"
  {
    if |files| == 0 then []
    else (if files[0] == "meta.json" then [] else [files[0]]) + WithoutMetaJson(files[1..])
  }

  /** `checkver?.processFiles || (name === 'latest' ? ['Dockerfile'] : ['Dockerfile.<name>'])`; an empty list is kept. */
  function DeclaredFiles(cv: Option<VersionCheck>, name: string): seq<string>
  {
    if cv.Some? && cv.value.processFiles.Some? then cv.value.processFiles.value
    else if name == "latest" then ["Dockerfile"]
    else ["Dockerfile." + name]
  }

  /** The placeholder record of lines 151-155. */
  function TemplateData(r: Variants.CheckResult): Template.PlaceholderData
  {
    [("version", [Some(r.version), r.variant.version]),
     ("sha", [Some(Take(r.sha, 7)), if r.variant.sha.Some? then Some(Take(r.variant.sha.value, 7)) else None]),
     ("fullSha", [Some(r.sha), r.variant.sha])]
  }

  function FilePath(context: string, file: string): string { context + "/" + file }

  function MetaPath(context: string): string { FilePath(context, "meta.json") }

  /** The files of one variant that are readable, non-empty and changed by the substitution. */
  function FileEdits(context: string, files: seq<string>, data: Template.PlaceholderData, read: string -> Option<string>): seq<ProcessedFile>
    decreases |files|
  {
    if |files| == 0 then []
    else
      var earlier := FileEdits(context, files[..|files| - 1], data, read);
      var path := FilePath(context, files[|files| - 1]);
      var content := read(path);
      if !Truthy(content) then earlier
      else
        var processed := Template.Resolve(content.value, data, Template.Plain);
        if processed == content.value then earlier
        else earlier + [ProcessedFile(path, processed, content.value, true)]
  }

  /** What one result contributes; a result naming no variant of the meta throws and contributes nothing. */
  function ResultEdits(context: string, meta: Meta, r: Variants.CheckResult, read: string -> Option<string>): seq<ProcessedFile>
  {
    if !HasKey(meta.variants, r.variantName) then []
    else FileEdits(context, WithoutMetaJson(DeclaredFiles(r.variant.checkver, r.variantName)), TemplateData(r), read)
  }

  function AllEdits(context: string, meta: Meta, results: seq<Variants.CheckResult>, read: string -> Option<string>): seq<ProcessedFile>
    decreases |results|
  {
    if |results| == 0 then []
    else AllEdits(context, meta, results[..|results| - 1], read) + ResultEdits(context, meta, results[|results| - 1], read)
  }

  /** `processedFiles`: every rewritten file, then `meta.json`. */
  function ProcessedFiles(context: string, original: Meta, results: seq<Variants.CheckResult>,
                          read: string -> Option<string>, stringify: Meta -> string): seq<ProcessedFile>
  {
    AllEdits(context, original, results, read) +
    [ProcessedFile(MetaPath(context), stringify(UpdatedMeta(original, results)), stringify(original), true)]
  }

  /** The `files` record: `files[f.path] = f.content` for each processed file, in order. */
  function FilesRecord(ps: seq<ProcessedFile>): seq<(string, string)>
    decreases |ps|
  {
    if |ps| == 0 then []
    else Put(FilesRecord(ps[..|ps| - 1]), ps[|ps| - 1].path, ps[|ps| - 1].content)
  }

  /** The content of the last processed file with the given path. */
  function LastContent(ps: seq<ProcessedFile>, path: string): Option<string>
    decreases |ps|
  {
    if |ps| == 0 then None
    else if ps[|ps| - 1].path == path then Some(ps[|ps| - 1].content)
    else LastContent(ps[..|ps| - 1], path)
  }

  // ------------------------------------------------------------------ pull request

  /** `CreatePullRequestOptions`, less the owner and repository of the workflow run. */
  datatype PrData = PrData(
    title: string,
    body: string,
    head: string,
    base: string,
    labels: seq<string>,
    files: seq<(string, string)>,
    commit: string)

  function BranchPrefix(isDev: bool): string { if isDev then "test" else "update" }

  function TitleItem(r: Variants.CheckResult): string { "update " + r.variantName + " version to " + r.version }

  function TitleItems(results: seq<Variants.CheckResult>): (r: seq<string>)
    ensures |r| == |results| && forall i :: 0 <= i < |results| ==> r[i] == TitleItem(results[i])
  {
    if |results| == 0 then [] else [TitleItem(results[0])] + TitleItems(results[1..])
  }

  function PrTitle(isDev: bool, context: string, results: seq<Variants.CheckResult>): string
  {
    BranchPrefix(isDev) + "(" + context + "): " + Join(TitleItems(results), ", ")
  }

  function PrHead(isDev: bool, context: string): string
  {
    BranchPrefix(isDev) + "/" + ReplaceFirst(context, "/", "-")
  }

  function PrLabels(isDev: bool, name: string): seq<string>
  {
    if isDev then [] else [name, "automerge"]
  }

  // ------------------------------------------------------------------ checking the variants

  /** The oracles `checkVersions` passes on to every variant's check, and the cache directory. */
  datatype Env = Env(up: string -> Variants.Upstream, m: Variants.Matchers, cacheDir: string,
                     ok: Git.Command -> bool, base64: string -> string)

  /** What `checkVersions` has built so far: the results, the commands issued, the cache, and whether it threw. */
  datatype Sweep = Sweep(results: seq<Variants.CheckResult>, cmds: seq<Git.Command>, repos: map<string, string>, thrown: bool)

  /**
   * One variant's turn: nothing after a throw or for a disabled variant; a
   * throw for an enabled variant without `checkver`; otherwise the variant
   * is rewritten, its repository (when it has one) cloned or updated, and
   * the outcome of its check appended when there is one.
   */
  function SweepStep(s: Sweep, entry: (string, ImageVariant), context: string, env: Env): Sweep
  {
    var (name, v) := entry;
    if s.thrown || Disabled(v) then s
    else if v.checkver.None? then s.(thrown := true)
    else
      var w := Variants.WithFullRepo(v);
      var cv := w.checkver.value;
      if !Truthy(cv.repo) then s
      else
        var plan := Git.RepoPlan(env.cacheDir, s.repos, cv.repo.value, Variants.CloneOpts(cv, context), env.ok, env.base64);
        var o := Variants.CheckOutcome(context, name, w, env.up(cv.repo.value), env.m, plan.1);
        Sweep(s.results + (if o.Some? then [o.value] else []), s.cmds + plan.0, Git.EffectAll(s.repos, plan.0, env.ok), false)
  }

  /** The commands and success of an enabled variant's clone or update; none without a repository. */
  function TurnPlan(s: Sweep, entry: (string, ImageVariant), context: string, env: Env): (seq<Git.Command>, bool)
    requires entry.1.checkver.Some?
  {
    var cv := Variants.WithFullRepo(entry.1).checkver.value;
    if Truthy(cv.repo) then Git.RepoPlan(env.cacheDir, s.repos, cv.repo.value, Variants.CloneOpts(cv, context), env.ok, env.base64)
    else ([], true)
  }

  /** What one variant's `check()` does, when the rewritten variant has a repository, is the sweep's step, and a result it reports comes from that variant. */
  lemma StepWithRepo(s: Sweep, entry: (string, ImageVariant), context: string, env: Env,
                     r: Option<Variants.CheckResult>, plan: (seq<Git.Command>, bool))
    requires !s.thrown && !Disabled(entry.1) && entry.1.checkver.Some?
    requires Truthy(Variants.WithFullRepo(entry.1).checkver.value.repo) && plan == TurnPlan(s, entry, context, env)
    requires var w := Variants.WithFullRepo(entry.1);
      r == Variants.CheckOutcome(context, entry.0, w, env.up(w.checkver.value.repo.value), env.m, plan.1)
    ensures var next := SweepStep(s, entry, context, env);
      !next.thrown && next.cmds == s.cmds + plan.0 && next.repos == Git.EffectAll(s.repos, plan.0, env.ok) &&
      (r.Some? ==> next.results == s.results + [r.value] && ResultOf(entry, r.value, context)) &&
      (r.None? ==> next.results == s.results)
  {
    var w := Variants.WithFullRepo(entry.1);
    Variants.CheckOutcomeMeaning(context, entry.0, w, env.up(w.checkver.value.repo.value), env.m, plan.1);
  }

  /** Without a repository the check returns nothing and issues nothing. */
  lemma StepWithoutRepo(s: Sweep, entry: (string, ImageVariant), context: string, env: Env)
    requires !s.thrown && !Disabled(entry.1) && entry.1.checkver.Some?
    requires !Truthy(Variants.WithFullRepo(entry.1).checkver.value.repo)
    ensures SweepStep(s, entry, context, env) == s && TurnPlan(s, entry, context, env) == ([], true)
  {
  }

  /** `checkVersions` over the variants `vs`, from a cache holding `repos`. */
  function SweepOf(vs: seq<(string, ImageVariant)>, context: string, env: Env, repos: map<string, string>, log: seq<Git.Command>): Sweep
    decreases |vs|
  {
    if |vs| == 0 then Sweep([], log, repos, false)
    else SweepStep(SweepOf(vs[..|vs| - 1], context, env, repos, log), vs[|vs| - 1], context, env)
  }

  lemma SweepPrefix(vs: seq<(string, ImageVariant)>, i: nat, context: string, env: Env, repos: map<string, string>, log: seq<Git.Command>)
    requires i < |vs|
    ensures SweepOf(vs[..i + 1], context, env, repos, log) == SweepStep(SweepOf(vs[..i], context, env, repos, log), vs[i], context, env)
  {
    assert vs[..i + 1][..i] == vs[..i];
  }

  /** Once the sweep has thrown, the later variants change nothing. */
  lemma {:induction false} SweepThrownStays(vs: seq<(string, ImageVariant)>, k: nat, context: string, env: Env, repos: map<string, string>, log: seq<Git.Command>)
    requires k <= |vs| && SweepOf(vs[..k], context, env, repos, log).thrown
    ensures SweepOf(vs, context, env, repos, log) == SweepOf(vs[..k], context, env, repos, log)
    decreases |vs|
  {
    if k < |vs| {
      var init := vs[..|vs| - 1];
      assert init[..k] == vs[..k];
      SweepThrownStays(init, k, context, env, repos, log);
    } else {
      assert vs[..k] == vs;
    }
  }

  /** An enabled variant that has no `checkver` makes the `VariantContext` constructor throw. */
  predicate Throws(entry: (string, ImageVariant))
  {
    !Disabled(entry.1) && entry.1.checkver.None?
  }

  /** `checkVersions` throws exactly when some enabled variant has no `checkver`. */
  lemma {:induction false} SweepThrown(vs: seq<(string, ImageVariant)>, context: string, env: Env, repos: map<string, string>, log: seq<Git.Command>)
    ensures SweepOf(vs, context, env, repos, log).thrown <==> exists i :: 0 <= i < |vs| && Throws(vs[i])
    decreases |vs|
  {
    if |vs| > 0 {
      var init := vs[..|vs| - 1];
      SweepThrown(init, context, env, repos, log);
      assert forall i :: 0 <= i < |init| ==> init[i] == vs[i];
      if exists i :: 0 <= i < |vs| && Throws(vs[i]) {
        var i :| 0 <= i < |vs| && Throws(vs[i]);
        if i < |init| {
          assert Throws(init[i]);
        }
      }
    }
  }

  predicate Enabled(entry: (string, ImageVariant)) { !Disabled(entry.1) }

  /** The variant has a `checkver` with a repository and its version resolves. */
  predicate Resolvable(v: ImageVariant, up: string -> Variants.Upstream, m: Variants.Matchers)
  {
    var w := Variants.WithFullRepo(v);
    w.checkver.Some? && Truthy(w.checkver.value.repo) &&
    Variants.VersionByType(w.checkver.value.kind, up(w.checkver.value.repo.value), w.checkver.value, m).Some?
  }

  /**
   * A variant found is a variant reported: when every command succeeds and
   * every enabled variant resolves, `checkVersions` returns one result per
   * enabled variant.
   */
  lemma {:induction false} SweepReportsAll(vs: seq<(string, ImageVariant)>, context: string, env: Env, repos: map<string, string>, log: seq<Git.Command>)
    requires forall c :: env.ok(c)
    requires forall i :: 0 <= i < |vs| && !Disabled(vs[i].1) ==> Resolvable(vs[i].1, env.up, env.m)
    ensures !SweepOf(vs, context, env, repos, log).thrown
    ensures |SweepOf(vs, context, env, repos, log).results| == Lists.Count(vs, Enabled)
    decreases |vs|
  {
    if |vs| > 0 {
      var init := vs[..|vs| - 1];
      assert forall i :: 0 <= i < |init| ==> init[i] == vs[i];
      SweepReportsAll(init, context, env, repos, log);
      var s := SweepOf(init, context, env, repos, log);
      var (name, v) := vs[|vs| - 1];
      if !Disabled(v) {
        var w := Variants.WithFullRepo(v);
        var cv := w.checkver.value;
        Git.RepoPlanSucceeds(env.cacheDir, s.repos, cv.repo.value, Variants.CloneOpts(cv, context), env.ok, env.base64);
      }
    }
  }

  /** The variants after `checkVersions` reached index `n`: the enabled ones before it have a full repository URL. */
  predicate NormalizedUpTo(start: seq<(string, ImageVariant)>, now: seq<(string, ImageVariant)>, n: nat)
  {
    |now| == |start| && n <= |start| &&
    (forall k :: 0 <= k < |start| ==> now[k].0 == start[k].0) &&
    (forall k :: 0 <= k < n ==> now[k].1 == if Disabled(start[k].1) then start[k].1 else Variants.WithFullRepo(start[k].1)) &&
    (forall k :: n <= k < |start| ==> now[k].1 == start[k].1)
  }

  /** A result comes from an enabled variant, with the variant's name, the context and the rewritten variant. */
  predicate ResultOf(entry: (string, ImageVariant), r: Variants.CheckResult, context: string)
  {
    !Disabled(entry.1) && r.variantName == entry.0 && r.context == context && r.variant == Variants.WithFullRepo(entry.1)
  }

  /** The results come, in order, from distinct variants before index `n`. */
  predicate Traced(start: seq<(string, ImageVariant)>, results: seq<Variants.CheckResult>, origin: seq<nat>, context: string, n: nat)
  {
    n <= |start| && |origin| == |results| &&
    (forall j, k :: 0 <= j < k < |origin| ==> origin[j] < origin[k]) &&
    (forall j :: 0 <= j < |origin| ==> origin[j] < n && ResultOf(start[origin[j]], results[j], context))
  }

  lemma NormalizeStep(start: seq<(string, ImageVariant)>, now: seq<(string, ImageVariant)>, i: nat, v: ImageVariant)
    requires NormalizedUpTo(start, now, i) && i < |start|
    requires v == if Disabled(start[i].1) then start[i].1 else Variants.WithFullRepo(start[i].1)
    ensures NormalizedUpTo(start, now[i := (start[i].0, v)], i + 1)
  {
  }

  lemma TracedWiden(start: seq<(string, ImageVariant)>, results: seq<Variants.CheckResult>, origin: seq<nat>, context: string, i: nat)
    requires Traced(start, results, origin, context, i) && i < |start|
    ensures Traced(start, results, origin, context, i + 1)
  {
  }

  lemma TracedStep(start: seq<(string, ImageVariant)>, results: seq<Variants.CheckResult>, origin: seq<nat>,
                   context: string, i: nat, r: Variants.CheckResult)
    requires Traced(start, results, origin, context, i) && i < |start| && ResultOf(start[i], r, context)
    ensures Traced(start, results + [r], origin + [i], context, i + 1)
  {
  }

  /** The inner loop of `processFiles` over one variant's files. */
  method RewriteFiles(context: string, list: seq<string>, data: Template.PlaceholderData, read: string -> Option<string>)
    returns (edits: seq<ProcessedFile>)
    ensures edits == FileEdits(context, list, data, read)
  {
    edits := [];
    var j := 0;
    while j < |list|
      invariant 0 <= j <= |list|
      invariant edits == FileEdits(context, list[..j], data, read)
    {
      assert list[..j + 1][..j] == list[..j];
      var path := FilePath(context, list[j]);
      var content := read(path);
      if !Truthy(content) {
        j := j + 1;
        continue;
      }
      var processedContent := Template.ResolveTemplate(content.value, Some(data), Template.Plain);
      if content.value == processedContent {
        j := j + 1;
        continue;
      }
      edits := edits + [ProcessedFile(path, processedContent, content.value, content.value != processedContent)];
      j := j + 1;
    }
    assert list[..|list|] == list;
  }

  /** `processedFiles.forEach(f => (files[f.path] = ...))` */
  method CollectFiles(ps: seq<ProcessedFile>) returns (files: seq<(string, string)>)
    ensures files == FilesRecord(ps)
  {
    files := [];
    var k := 0;
    while k < |ps|
      invariant 0 <= k <= |ps|
      invariant files == FilesRecord(ps[..k])
    {
      assert ps[..k + 1][..k] == ps[..k];
      files := Put(files, ps[k].path, ps[k].content);
      k := k + 1;
    }
    assert ps[..|ps|] == ps;
  }

  // ------------------------------------------------------------------ the context

  class CheckAppContext {
    const context: string
    const name: string
    /** The meta the variants are checked against; their `checkver.repo` is rewritten in place. */
    var meta: Meta
    /** The deep copy taken at construction. */
    const originalMeta: Meta

    constructor(context: string, meta: Meta)
      ensures this.context == context && this.name == meta.name
      ensures this.meta == meta && originalMeta == meta
    {
      this.context := context;
      this.name := meta.name;
      this.meta := meta;
      this.originalMeta := meta;
    }

    /**
     * `checkVersions`: checks the variants in order, skipping disabled ones
     * and those whose check yields nothing. A reached, enabled variant
     * without `checkver` makes the `VariantContext` constructor throw
     * (`None`). `origin` names the variant each result comes from.
     */
    method CheckVersions(cache: Git.RepoCache, up: string -> Variants.Upstream, m: Variants.Matchers,
                         ok: Git.Command -> bool, base64: string -> string)
      returns (r: Option<seq<Variants.CheckResult>>, ghost origin: seq<nat>)
      modifies this, cache
      ensures var s := SweepOf(old(meta.variants), context, Env(up, m, cache.cacheDir, ok, base64), old(cache.repos), old(cache.log));
        (r.None? <==> s.thrown) && (r.Some? ==> r.value == s.results) &&
        cache.log == s.cmds && cache.repos == s.repos
      ensures r.None? <==> exists i :: 0 <= i < |old(meta.variants)| && Throws(old(meta.variants)[i])
      ensures meta.name == old(meta.name) && meta.imageType == old(meta.imageType) && meta.skip == old(meta.skip)
      ensures exists n :: 0 <= n <= |old(meta.variants)| && NormalizedUpTo(old(meta.variants), meta.variants, n)
      ensures r.Some? ==> NormalizedUpTo(old(meta.variants), meta.variants, |old(meta.variants)|)
      ensures r.Some? ==> Traced(old(meta.variants), r.value, origin, context, |old(meta.variants)|)
    {
      ghost var env := Env(up, m, cache.cacheDir, ok, base64);
      ghost var repos0 := cache.repos;
      ghost var log0 := cache.log;
      SweepThrown(meta.variants, context, env, repos0, log0);
      ghost var sweep := Sweep([], log0, repos0, false);
      ghost var start := meta.variants;
      var results: seq<Variants.CheckResult> := [];
      origin := [];
      var i := 0;
      while i < |meta.variants|
        invariant 0 <= i <= |start|
        invariant meta.name == old(meta.name) && meta.imageType == old(meta.imageType) && meta.skip == old(meta.skip)
        invariant NormalizedUpTo(start, meta.variants, i)
        invariant Traced(start, results, origin, context, i)
        invariant sweep == SweepOf(start[..i], context, env, repos0, log0)
        invariant !sweep.thrown && results == sweep.results && cache.log == sweep.cmds && cache.repos == sweep.repos
      {
        SweepPrefix(start, i, context, env, repos0, log0);
        if Throws(meta.variants[i]) {
          SweepThrownStays(start, i + 1, context, env, repos0, log0);
          return None, origin;
        }
        results, origin, sweep := CheckTurn(i, cache, up, m, ok, base64, env, sweep, start, results, origin);
        i := i + 1;
      }
      assert start[..i] == start;
      r := Some(results);
    }

    /**
     * One turn of `checkVersions` for a variant that does not throw: a
     * disabled variant is skipped; an enabled one has its `checkver.repo`
     * rewritten in place, then is checked.
     */
    method CheckTurn(i: nat, cache: Git.RepoCache, up: string -> Variants.Upstream, m: Variants.Matchers,
                     ok: Git.Command -> bool, base64: string -> string,
                     ghost env: Env, ghost sweep: Sweep, ghost start: seq<(string, ImageVariant)>,
                     results0: seq<Variants.CheckResult>, ghost origin0: seq<nat>)
      returns (results: seq<Variants.CheckResult>, ghost origin: seq<nat>, ghost next: Sweep)
      requires i < |start| && NormalizedUpTo(start, meta.variants, i) && !Throws(start[i])
      requires env == Env(up, m, cache.cacheDir, ok, base64)
      requires !sweep.thrown && results0 == sweep.results && cache.log == sweep.cmds && cache.repos == sweep.repos
      requires Traced(start, results0, origin0, context, i)
      modifies this, cache
      ensures meta.name == old(meta.name) && meta.imageType == old(meta.imageType) && meta.skip == old(meta.skip)
      ensures NormalizedUpTo(start, meta.variants, i + 1)
      ensures next == SweepStep(sweep, start[i], context, env)
      ensures !next.thrown && results == next.results && cache.log == next.cmds && cache.repos == next.repos
      ensures Traced(start, results, origin, context, i + 1)
    {
      var (variantName, variant) := meta.variants[i];
      next := SweepStep(sweep, (variantName, variant), context, env);
      if Disabled(variant) {
        NormalizeStep(start, meta.variants, i, variant);
        TracedWiden(start, results0, origin0, context, i);
        return results0, origin0, next;
      }
      var vc := new Variants.VariantContext(context, variantName, variant);
      NormalizeStep(start, meta.variants, i, vc.variant);
      meta := meta.(variants := meta.variants[i := (variantName, vc.variant)]);
      ghost var plan := TurnPlan(sweep, (variantName, variant), context, env);
      var result := vc.Check(cache, up(vc.repo.GetOr("")), m, ok, base64);
      if Truthy(vc.variant.checkver.value.repo) {
        StepWithRepo(sweep, (variantName, variant), context, env, result, plan);
      } else {
        StepWithoutRepo(sweep, (variantName, variant), context, env);
      }
      if result.Some? {
        TracedStep(start, results0, origin0, context, i, result.value);
        results, origin := results0 + [result.value], origin0 + [i];
      } else {
        TracedWiden(start, results0, origin0, context, i);
        results, origin := results0, origin0;
      }
    }

    /**
     * `processFiles`: records every result in a copy of the original meta,
     * rewrites each variant's files, then appends `meta.json`, and folds the
     * list into the `files` record keyed by path.
     */
    method ProcessFiles(results: seq<Variants.CheckResult>, read: string -> Option<string>, stringify: Meta -> string)
      returns (processed: seq<ProcessedFile>, files: seq<(string, string)>)
      ensures processed == ProcessedFiles(context, originalMeta, results, read, stringify)
      ensures files == FilesRecord(processed)
    {
      var copy := originalMeta;
      processed := [];
      var i := 0;
      while i < |results|
        invariant 0 <= i <= |results|
        invariant copy == UpdatedMeta(originalMeta, results[..i])
        invariant processed == AllEdits(context, originalMeta, results[..i], read)
      {
        var result := results[i];
        ghost var prefix := results[..i + 1];
        assert prefix[..i] == results[..i] && prefix[i] == result && |prefix| - 1 == i;
        UpdatedMetaKeys(originalMeta, results[..i]);
        var entry := Get(copy.variants, result.variantName);
        if entry.None? {
          // `meta.variants[name].version` throws; the error is caught and the result skipped
          i := i + 1;
          continue;
        }
        copy := copy.(variants := Put(copy.variants, result.variantName, MergeVariant(entry.value, result.version, result.sha)));
        var list := DeclaredFiles(result.variant.checkver, result.variantName);
        if |list| == 0 {
          i := i + 1;
          continue;
        }
        list := WithoutMetaJson(list);
        var edits := RewriteFiles(context, list, TemplateData(result), read);
        processed := processed + edits;
        i := i + 1;
      }
      assert results[..|results|] == results;
      processed := processed + [ProcessedFile(MetaPath(context), stringify(copy), stringify(originalMeta), true)];
      files := CollectFiles(processed);
    }

    /** `buildPrData`; the Markdown body of `buildPRBody` and the base branch are given. */
    method BuildPrData(results: seq<Variants.CheckResult>, isDev: bool, base: string, body: string,
                       read: string -> Option<string>, stringify: Meta -> string)
      returns (pr: PrData)
      ensures pr.files == FilesRecord(ProcessedFiles(context, originalMeta, results, read, stringify))
      ensures pr.title == PrTitle(isDev, context, results) && pr.commit == pr.title
      ensures pr.head == PrHead(isDev, context) && pr.labels == PrLabels(isDev, name)
      ensures pr.base == base && pr.body == body
    {
      var _, files := ProcessFiles(results, read, stringify);
      var prefix := BranchPrefix(isDev);
      var title := Join(TitleItems(results), ", ");
      pr := PrData(prefix + "(" + context + "): " + title, body, prefix + "/" + ReplaceFirst(context, "/", "-"),
                   base, if isDev then [] else [name, "automerge"], files, prefix + "(" + context + "): " + title);
    }
  }

  // ------------------------------------------------------------------ properties

  /** Recording results never adds, drops or reorders variants, and leaves the other fields alone. */
  lemma {:induction false} UpdatedMetaKeys(meta: Meta, results: seq<Variants.CheckResult>)
    ensures var u := UpdatedMeta(meta, results);
      Keys(u.variants) == Keys(meta.variants) && u.name == meta.name && u.imageType == meta.imageType && u.skip == meta.skip
    decreases |results|
  {
    if |results| > 0 {
      var prev := UpdatedMeta(meta, results[..|results| - 1]);
      UpdatedMetaKeys(meta, results[..|results| - 1]);
      var r := results[|results| - 1];
      if HasKey(prev.variants, r.variantName) {
        PutKeys(prev.variants, r.variantName, MergeVariant(Get(prev.variants, r.variantName).value, r.version, r.sha));
      }
    }
  }

  /**
   * In the copy, a reported variant carries the version and SHA of the last
   * result reported for it, every other field of it unchanged; a variant no
   * result names is unchanged.
   */
  lemma {:induction false} UpdatedMetaVariant(meta: Meta, results: seq<Variants.CheckResult>, k: string)
    ensures var got := Get(UpdatedMeta(meta, results).variants, k);
      var last := LastFor(results, k);
      if last.None? || !HasKey(meta.variants, k) then got == Get(meta.variants, k)
      else got == Some(MergeVariant(Get(meta.variants, k).value, last.value.version, last.value.sha))
    decreases |results|
  {
    if |results| > 0 {
      var init := results[..|results| - 1];
      var r := results[|results| - 1];
      var prev := UpdatedMeta(meta, init);
      assert UpdatedMeta(meta, results) == MergeResult(prev, r);
      UpdatedMetaKeys(meta, init);
      MergeResultGet(prev, r, k);
      UpdatedMetaVariant(meta, init, k);
      if k == r.variantName {
        assert LastFor(results, k) == Some(r);
        assert HasKey(prev.variants, k) == HasKey(meta.variants, k);
        if HasKey(meta.variants, k) {
          var original := Get(meta.variants, k).value;
          var before := Get(prev.variants, k).value;
          assert before == original || exists a, b :: before == MergeVariant(original, a, b);
          assert MergeVariant(before, r.version, r.sha) == MergeVariant(original, r.version, r.sha);
        }
      } else {
        assert LastFor(results, k) == LastFor(init, k);
      }
    }
  }

  /** One recorded result changes only the variant it names, and only when that variant exists. */
  lemma MergeResultGet(meta: Meta, r: Variants.CheckResult, k: string)
    ensures Get(MergeResult(meta, r).variants, k) ==
      if k == r.variantName && HasKey(meta.variants, k) then Some(MergeVariant(Get(meta.variants, k).value, r.version, r.sha))
      else Get(meta.variants, k)
  {
    if HasKey(meta.variants, r.variantName) {
      PutGet(meta.variants, r.variantName, MergeVariant(Get(meta.variants, r.variantName).value, r.version, r.sha), k);
    }
  }

  /** The original meta is what `meta.json` is compared against, and every rewritten file precedes `meta.json`. */
  lemma ProcessedFilesEndWithMeta(context: string, original: Meta, results: seq<Variants.CheckResult>,
                                  read: string -> Option<string>, stringify: Meta -> string)
    ensures var ps := ProcessedFiles(context, original, results, read, stringify);
      |ps| >= 1 && ps[|ps| - 1] == ProcessedFile(MetaPath(context), stringify(UpdatedMeta(original, results)), stringify(original), true)
  {
  }

  /** Every file of a variant's list is emitted iff it is readable, non-empty and changed, with its path under the context. */
  lemma {:induction false} FileEditsShape(context: string, files: seq<string>, data: Template.PlaceholderData, read: string -> Option<string>)
    ensures forall e :: e in FileEdits(context, files, data, read) ==>
      exists f :: f in files && e.path == FilePath(context, f) && read(e.path) == Some(e.originalContent) &&
        e.originalContent != "" && e.content == Template.Resolve(e.originalContent, data, Template.Plain) &&
        e.content != e.originalContent && e.changed
    ensures forall f :: f in files ==>
      var c := read(FilePath(context, f));
      Truthy(c) && Template.Resolve(c.value, data, Template.Plain) != c.value ==>
        ProcessedFile(FilePath(context, f), Template.Resolve(c.value, data, Template.Plain), c.value, true) in FileEdits(context, files, data, read)
    decreases |files|
  {
    if |files| > 0 {
      var init := files[..|files| - 1];
      FileEditsShape(context, init, data, read);
      assert forall f :: f in init ==> f in files;
      assert forall f :: f in files ==> f in init || f == files[|files| - 1];
    }
  }

  /** The default list, and `meta.json` never processed as a template. */
  lemma ProcessListDefaults(cv: Option<VersionCheck>, name: string)
    ensures cv.None? || cv.value.processFiles.None? ==>
      DeclaredFiles(cv, name) == if name == "latest" then ["Dockerfile"] else ["Dockerfile." + name]
    ensures "meta.json" !in WithoutMetaJson(DeclaredFiles(cv, name))
  {
  }

  /**
   * The `files` record holds each path once, mapped to the content of the
   * last processed file with that path: when two variants rewrite the same
   * file, the later rewrite (of the unmodified original) wins.
   */
  lemma {:induction false} FilesRecordLastWins(ps: seq<ProcessedFile>, path: string)
    ensures DistinctKeys(FilesRecord(ps))
    ensures Get(FilesRecord(ps), path) == LastContent(ps, path)
    decreases |ps|
  {
    if |ps| > 0 {
      var init := ps[..|ps| - 1];
      FilesRecordLastWins(init, path);
      PutKeys(FilesRecord(init), ps[|ps| - 1].path, ps[|ps| - 1].content);
      PutGet(FilesRecord(init), ps[|ps| - 1].path, ps[|ps| - 1].content, path);
    }
  }

  /** So the record always maps `<context>/meta.json` to the rewritten meta. */
  lemma FilesRecordHasMeta(context: string, original: Meta, results: seq<Variants.CheckResult>,
                           read: string -> Option<string>, stringify: Meta -> string)
    ensures Get(FilesRecord(ProcessedFiles(context, original, results, read, stringify)), MetaPath(context))
         == Some(stringify(UpdatedMeta(original, results)))
  {
    FilesRecordLastWins(ProcessedFiles(context, original, results, read, stringify), MetaPath(context));
  }

  /** The head branch: the context with its first `/` (only) replaced by `-`. */
  lemma PrHeadShape(isDev: bool, a: string, b: string)
    requires '/' !in a
    ensures PrHead(isDev, a + "/" + b) == BranchPrefix(isDev) + "/" + a + "-" + b
    ensures '/' !in b ==> '/' !in PrHead(isDev, a + "/" + b)[|BranchPrefix(isDev)| + 1..]
  {
    assert !Contains(a + "", "/") by {
      assert a + "" == a;
      forall i: nat | i <= |a| ensures !OccursAt(a, "/", i) {
        if i + 1 <= |a| { assert a[i..i + 1][0] == a[i]; }
      }
    }
    assert "/"[..|"/"| - 1] == "";
    ReplaceFirstSplits(a, "/", b, "-");
    var p := BranchPrefix(isDev);
    assert PrHead(isDev, a + "/" + b)[|p| + 1..] == a + "-" + b;
  }

  // ------------------------------------------------------------------ finding

  /**
   * As written, a variant recorded without a `version` keeps its stale `sha`:
   * the spread puts the old `sha` back over the new one.
   */
  lemma MergeAsWrittenKeepsStaleSha()
    ensures var stale := ImageVariant(None, Some("abc1234"), None, None, None);
      MergeAsWritten(stale, "1.2.0", "def5678").sha == Some("abc1234") &&
      MergeVariant(stale, "1.2.0", "def5678").sha == Some("def5678")
  {
  }

  /** With the corrected merge the copy holds the new version and SHA of every variant a result names, whatever it held before. */
  lemma {:induction false} MergeVariantRecords(meta: Meta, results: seq<Variants.CheckResult>, k: string)
    requires HasKey(meta.variants, k) && LastFor(results, k).Some?
    ensures var got := Get(UpdatedMeta(meta, results).variants, k);
      got.Some? && got.value.version == Some(LastFor(results, k).value.version) &&
      got.value.sha == Some(LastFor(results, k).value.sha)
  {
    UpdatedMetaVariant(meta, results, k);
  }
}
