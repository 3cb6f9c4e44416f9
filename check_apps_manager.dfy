/**
 * `CheckAppsManager` (action/src/context/checkAppsManager.ts): selects the
 * applications to check from the triggering event, loads their metas,
 * checks them chunk by chunk and builds one pull request per outdated
 * application.
 *
 * The glob is the list of repository files `tree`; `readMeta` is `readJson`
 * of a `meta.json` (`None` when missing or unparsable) and `valid` the schema
 * validator. Paths are relative and already normalised.
 */
module CheckApps {
  import opened Options
  import opened Strings
  import opened Assoc
  import opened Schema
  import Utils
  import Variants
  import Git
  import CheckApp

  // ------------------------------------------------------------------ paths

  // ------------------------------------------------------------------ getCheckVersionContext

  /** One commit of a push payload. */
  datatype PushCommit = PushCommit(added: seq<string>, modified: seq<string>)

  /** A changed file of `compareCommits`. */
  datatype ComparedFile = ComparedFile(status: string, filename: string)

  /** What `getCheckVersionContext` decides: a context list (`None` for all), a clean exit, or a caught error. */
  datatype ContextSelection = Selected(contexts: Option<seq<string>>) | Exit | Failed

  function AddedFiles(commits: seq<PushCommit>): seq<string>
  {
    if |commits| == 0 then [] else commits[0].added + AddedFiles(commits[1..])
  }

  function ModifiedFiles(commits: seq<PushCommit>): seq<string>
  {
    if |commits| == 0 then [] else commits[0].modified + ModifiedFiles(commits[1..])
  }

  function ComparedNames(files: seq<ComparedFile>): seq<string>
  {
    if |files| == 0 then []
    else (if files[0].status in ["added", "modified", "renamed"] then [files[0].filename] else []) + ComparedNames(files[1..])
  }

  /** `/Dockerfile.<suffix>` at the end, the suffix non-empty and without `.`. */
  predicate EndsWithDockerfileVariant(f: string)
  {
    var k := LastIndexOf(f, '.');
    k.Some? && k.value + 1 < |f| && EndsWith(f[..k.value], "/Dockerfile")
  }

  /** `/(\/meta\.json$)|(\/Dockerfile(\.[^.]+)?$)/` */
  predicate IsWatchedFile(f: string)
  {
    EndsWith(f, "/meta.json") || EndsWith(f, "/Dockerfile") || EndsWithDockerfileVariant(f)
  }

  function WatchedFiles(files: seq<string>): (r: seq<string>)
    ensures forall f :: f in r <==> f in files && IsWatchedFile(f)
  {
    if |files| == 0 then [] else (if IsWatchedFile(files[0]) then [files[0]] else []) + WatchedFiles(files[1..])
  }

  function Dirnames(files: seq<string>): (r: seq<string>)
    ensures |r| == |files| && forall i :: 0 <= i < |files| ==> r[i] == Dirname(files[i])
  {
    if |files| == 0 then [] else [Dirname(files[0])] + Dirnames(files[1..])
  }

  function TrimAll(parts: seq<string>): (r: seq<string>)
    ensures |r| == |parts| && forall i :: 0 <= i < |parts| ==> r[i] == Trim(parts[i])
  {
    if |parts| == 0 then [] else [Trim(parts[0])] + TrimAll(parts[1..])
  }

  /** `getCheckVersionContext`, for the configured `context` input and the push payload. */
  function GetCheckVersionContext(event: string, contextInput: Option<string>, commits: seq<PushCommit>,
                                  compared: seq<ComparedFile>): ContextSelection
  {
    if event == "workflow_dispatch" then
      Selected(if Truthy(contextInput) then Some(TrimAll(Split(contextInput.value, ','))) else None)
    else if event == "schedule" then Selected(None)
    else if event == "push" then
      var pushed := AddedFiles(commits) + ModifiedFiles(commits);
      var files := if |pushed| == 0 then ComparedNames(compared) else pushed;
      var watched := WatchedFiles(files);
      if |watched| == 0 then Exit
      else Selected(Some(Distinct(Dirnames(watched))))
    else Failed
  }

  // ------------------------------------------------------------------ scanApps

  /** The roots of the glob patterns; the `test` tree only outside scheduled runs. */
  function ScanRoots(event: string): seq<string>
  {
    ["apps", "base", "sync"] + (if event != "schedule" then ["test"] else [])
  }

  /** The glob `<root>/` + `**` + `/meta.json`: a `meta.json` anywhere below the root. */
  predicate MatchesRoot(f: string, root: string)
  {
    StartsWith(f, root + "/") && EndsWith(f, "/meta.json")
  }

  predicate Scanned(f: string, event: string)
  {
    exists k :: 0 <= k < |ScanRoots(event)| && MatchesRoot(f, ScanRoots(event)[k])
  }

  function MetaFiles(tree: seq<string>, event: string): (r: seq<string>)
    ensures forall f :: f in r <==> f in tree && Scanned(f, event)
  {
    if |tree| == 0 then [] else (if Scanned(tree[0], event) then [tree[0]] else []) + MetaFiles(tree[1..], event)
  }

  function Among(apps: seq<string>, wanted: seq<string>): (r: seq<string>)
    ensures forall a :: a in r <==> a in apps && a in wanted
  {
    if |apps| == 0 then [] else (if apps[0] in wanted then [apps[0]] else []) + Among(apps[1..], wanted)
  }

  /**
   * `scanApps`: the directories of the scanned metas, restricted to the
   * selected contexts when the list is non-empty. `None` when the process
   * exits because a push touched no watched file.
   */
  function ScanApps(event: string, tree: seq<string>, sel: ContextSelection): Option<seq<string>>
  {
    if sel.Exit? then None
    else
      var contextList := if sel.Selected? && sel.contexts.Some? then sel.contexts.value else [];
      var allApps := Dirnames(MetaFiles(tree, event));
      Some(if |contextList| > 0 then Among(allApps, contextList) else allApps)
  }

  // ------------------------------------------------------------------ loadAppContext

  function MetaFile(appPath: string): string
  {
    if EndsWith(appPath, "meta.json") then appPath else appPath + "/meta.json"
  }

  /** Whether `loadAppContext` yields a context; its `pathExists` guard tests a promise and never fires. */
  predicate Loadable(appPath: string, readMeta: string -> Option<Meta>, valid: Meta -> bool)
  {
    var meta := readMeta(MetaFile(appPath));
    meta.Some? && valid(meta.value) && meta.value.skip != Some(true)
  }

  /** `loadAppContext` */
  method LoadAppContext(appPath: string, readMeta: string -> Option<Meta>, valid: Meta -> bool)
    returns (app: Option<CheckApp.CheckAppContext>)
    ensures app.Some? <==> Loadable(appPath, readMeta, valid)
    ensures app.Some? ==>
      fresh(app.value) && app.value.context == Dirname(MetaFile(appPath)) &&
      app.value.meta == readMeta(MetaFile(appPath)).value && app.value.originalMeta == app.value.meta
  {
    var metaFile := MetaFile(appPath);
    var context := Dirname(metaFile);
    var meta := readMeta(metaFile);
    if meta.None? {
      return None;
    }
    if !valid(meta.value) {
      return None;
    }
    if meta.value.skip == Some(true) {
      return None;
    }
    var ctx := new CheckApp.CheckAppContext(context, meta.value);
    app := Some(ctx);
  }

  // ------------------------------------------------------------------ checkAllVersions

  /** `versions.filter(v => v.needsUpdate)` */
  function NeedingUpdate(vs: seq<Variants.CheckResult>): (r: seq<Variants.CheckResult>)
    ensures |r| <= |vs|
    ensures forall x :: x in r <==> x in vs && x.needsUpdate
  {
    if |vs| == 0 then [] else (if vs[0].needsUpdate then [vs[0]] else []) + NeedingUpdate(vs[1..])
  }

  /** The outdated map that goes with a results map when every context is new. */
  function OutdatedOf(results: seq<(string, seq<Variants.CheckResult>)>): seq<(string, seq<Variants.CheckResult>)>
    decreases |results|
  {
    if |results| == 0 then []
    else
      var (k, v) := results[|results| - 1];
      OutdatedOf(results[..|results| - 1]) + (if |NeedingUpdate(v)| > 0 then [(k, NeedingUpdate(v))] else [])
  }

  function Contexts(apps: seq<CheckApp.CheckAppContext>): (r: seq<string>)
    ensures |r| == |apps| && forall i :: 0 <= i < |apps| ==> r[i] == apps[i].context
  {
    if |apps| == 0 then [] else [apps[0].context] + Contexts(apps[1..])
  }

  predicate DistinctContexts(apps: seq<CheckApp.CheckAppContext>)
  {
    forall i, j :: 0 <= i < j < |apps| ==> apps[i].context != apps[j].context
  }

  /** The chunk prefix, the chunk, and the rest. */
  lemma {:induction false} FlattenSplit<T>(xss: seq<seq<T>>, c: nat)
    requires c < |xss|
    ensures Utils.Flatten(xss) == Utils.Flatten(xss[..c]) + xss[c] + Utils.Flatten(xss[c + 1..])
  {
    if c == 0 {
      assert xss[..0] == [];
    } else {
      FlattenSplit(xss[1..], c - 1);
      assert xss[1..][..c - 1] == xss[1..c];
      assert xss[1..][c - 1] == xss[c];
      assert xss[1..][c..] == xss[c + 1..];
      assert xss[..c][1..] == xss[1..c];
      assert Utils.Flatten(xss[..c]) == xss[0] + Utils.Flatten(xss[1..c]);
    }
  }

  lemma {:induction false} FlattenFullLength<T>(xss: seq<seq<T>>, c: nat, size: nat)
    requires c <= |xss| && forall k :: 0 <= k < c ==> |xss[k]| == size
    ensures |Utils.Flatten(xss[..c])| == c * size
  {
    if c > 0 {
      FlattenFullLength(xss, c - 1, size);
      assert xss[..c] == xss[..c - 1] + [xss[c - 1]];
      Utils.FlattenAppend(xss[..c - 1], xss[c - 1]);
      Utils.MulSucc(c - 1, size);
    }
  }

  /**
   * The logged `(index - 1) * concurrency + i + 1` of the `i`-th app of the
   * `index`-th chunk is that app's 1-based position in the list.
   */
  lemma ChunkPosition<T>(a: seq<T>, chunks: seq<seq<T>>, size: nat, index: nat, i: nat)
    requires Utils.Flatten(chunks) == a
    requires forall k :: 0 <= k < |chunks| - 1 ==> |chunks[k]| == size
    requires 1 <= index <= |chunks| && i < |chunks[index - 1]|
    ensures (index - 1) * size + i + 1 <= |a| && a[(index - 1) * size + i] == chunks[index - 1][i]
  {
    FlattenSplit(chunks, index - 1);
    FlattenFullLength(chunks, index - 1, size);
  }

  lemma OutdatedOfAppend(results: seq<(string, seq<Variants.CheckResult>)>, k: string, v: seq<Variants.CheckResult>)
    ensures OutdatedOf(results + [(k, v)]) == OutdatedOf(results) + (if |NeedingUpdate(v)| > 0 then [(k, NeedingUpdate(v))] else [])
  {
    assert (results + [(k, v)])[..|results|] == results;
  }

  /** The `reduce((sum, variants) => sum + variants.length, 0)` of `generateSummary`. */
  function SumLengths(xs: seq<(string, seq<Variants.CheckResult>)>): nat
    decreases |xs|
  {
    if |xs| == 0 then 0 else SumLengths(xs[..|xs| - 1]) + |xs[|xs| - 1].1|
  }

  /** The statistics line of `generateSummary`; `None` when nothing is outdated. */
  datatype Totals = Totals(apps: nat, variants: nat, outdatedVariants: nat)

  function SummaryTotals(outdated: seq<(string, seq<Variants.CheckResult>)>, all: seq<(string, seq<Variants.CheckResult>)>): Option<Totals>
  {
    if |outdated| == 0 then None else Some(Totals(|all|, SumLengths(all), SumLengths(outdated)))
  }

  lemma SumLengthsSnoc(xs: seq<(string, seq<Variants.CheckResult>)>, e: (string, seq<Variants.CheckResult>))
    ensures SumLengths(xs + [e]) == SumLengths(xs) + |e.1|
  {
    assert (xs + [e])[..|xs|] == xs;
  }

  /** Outdated variants never outnumber the checked ones, nor outdated apps the checked apps. */
  lemma {:induction false} OutdatedTotals(results: seq<(string, seq<Variants.CheckResult>)>)
    ensures SumLengths(OutdatedOf(results)) <= SumLengths(results)
    ensures |OutdatedOf(results)| <= |results|
    decreases |results|
  {
    if |results| > 0 {
      var init := results[..|results| - 1];
      var e := results[|results| - 1];
      OutdatedTotals(init);
      assert results == init + [e];
      OutdatedOfAppend(init, e.0, e.1);
      SumLengthsSnoc(init, e);
      var stale := NeedingUpdate(e.1);
      assert results == init + [(e.0, e.1)];
      if |stale| > 0 {
        assert OutdatedOf(results) == OutdatedOf(init) + [(e.0, stale)];
        SumLengthsSnoc(OutdatedOf(init), (e.0, stale));
      } else {
        assert OutdatedOf(results) == OutdatedOf(init);
      }
    }
  }

  /** There is an outdated app iff some checked variant needs an update. */
  lemma {:induction false} OutdatedEmpty(results: seq<(string, seq<Variants.CheckResult>)>)
    ensures |OutdatedOf(results)| == 0 <==> forall i :: 0 <= i < |results| ==> |NeedingUpdate(results[i].1)| == 0
    decreases |results|
  {
    if |results| > 0 {
      var init := results[..|results| - 1];
      var e := results[|results| - 1];
      OutdatedEmpty(init);
      assert results == init + [e];
      OutdatedOfAppend(init, e.0, e.1);
      assert forall i :: 0 <= i < |init| ==> init[i] == results[i];
    }
  }

  class CheckAppsManager {
    /** The `apps` Map: application path to its context, in insertion order. */
    var apps: seq<(string, CheckApp.CheckAppContext)>

    /** Every entry holds its own context object, as `loadApps` builds them. */
    predicate Valid()
      reads this
    {
      DistinctValues(apps)
    }

    constructor()
      ensures apps == [] && Valid()
    {
      apps := [];
    }

    /** The contexts in map order. */
    function AppList(): (r: seq<CheckApp.CheckAppContext>)
      reads this
      ensures |r| == |apps| && forall i :: 0 <= i < |apps| ==> r[i] == apps[i].1
    {
      Values(apps)
    }

    /** `loadApps`: clears the map, then adds every loadable path in order (a repeated path keeps its first place). */
    method LoadApps(appPaths: seq<string>, readMeta: string -> Option<Meta>, valid: Meta -> bool)
      modifies this
      ensures DistinctKeys(apps)
      ensures forall k :: HasKey(apps, k) <==> k in appPaths && Loadable(k, readMeta, valid)
      ensures forall i :: 0 <= i < |apps| ==> fresh(apps[i].1) && LoadedFrom(apps[i], readMeta)
      ensures Valid()
    {
      apps := [];
      var i := 0;
      while i < |appPaths|
        invariant 0 <= i <= |appPaths|
        invariant DistinctKeys(apps)
        invariant forall k :: HasKey(apps, k) <==> k in appPaths[..i] && Loadable(k, readMeta, valid)
        invariant forall j :: 0 <= j < |apps| ==> fresh(apps[j].1) && LoadedFrom(apps[j], readMeta)
        invariant DistinctValues(apps)
      {
        assert appPaths[..i + 1] == appPaths[..i] + [appPaths[i]];
        var app := LoadAppContext(appPaths[i], readMeta, valid);
        if app.Some? {
          Assign(appPaths[i], app.value);
        }
        i := i + 1;
      }
    }

    /** `apps.set`: a new context object, assigned under its path. */
    method Assign(k: string, app: CheckApp.CheckAppContext)
      requires DistinctValues(apps) && forall i :: 0 <= i < |apps| ==> apps[i].1 != app
      modifies this
      ensures apps == Put(old(apps), k, app) && DistinctValues(apps)
      ensures forall x :: HasKey(apps, x) <==> HasKey(old(apps), x) || x == k
      ensures DistinctKeys(old(apps)) ==> DistinctKeys(apps)
      ensures forall i :: 0 <= i < |apps| ==> apps[i] == (k, app) || apps[i] in old(apps)
    {
      PutFresh(apps, k, app);
      PutFacts(apps, k, app);
      apps := Put(apps, k, app);
    }

    /**
     * `checkAllVersions`: checks the apps chunk by chunk (sequentially
     * within a chunk). An app whose check throws is left out of `results`;
     * `outdated` has the apps with at least one variant needing an update.
     */
    method CheckAllVersions(concurrency: nat, cache: Git.RepoCache, up: string -> Variants.Upstream, m: Variants.Matchers,
                            ok: Git.Command -> bool, base64: string -> string)
      returns (results: seq<(string, seq<Variants.CheckResult>)>, outdated: seq<(string, seq<Variants.CheckResult>)>)
      requires concurrency >= 1 && Valid()
      modifies cache, set i | 0 <= i < |apps| :: apps[i].1
      ensures var run := RunOf(old(Inputs(AppList())), CheckOf(CheckApp.Env(up, m, cache.cacheDir, ok, base64)), old(cache.repos), old(cache.log));
        results == run.results && outdated == run.outdated && cache.log == run.cmds && cache.repos == run.repos
      ensures DistinctKeys(results) && DistinctKeys(outdated)
      ensures forall k :: HasKey(outdated, k) ==> HasKey(results, k)
      ensures forall k :: HasKey(results, k) ==> k in Contexts(AppList())
      ensures OutdatedEntries(outdated)
      ensures DistinctContexts(AppList()) ==> outdated == OutdatedOf(results)
    {
      var list := Values(apps);
      AppsInList(apps, list);
      assert DistinctApps(list);
      ghost var inputs := Inputs(list);
      var chunks := Utils.ChunkArray(list, concurrency);
      results, outdated := CheckChunks(chunks, list, inputs, cache, up, m, ok, base64);
      InvariantDone(results, outdated, list);
      assert AppList() == list;
    }

    /** `buildPrDatas`: one pull request per outdated context found in `apps`, in map order. */
    method BuildPrDatas(outdated: seq<(string, seq<Variants.CheckResult>)>, isDev: bool, base: string,
                        body: (string, seq<Variants.CheckResult>) -> string,
                        read: string -> Option<string>, stringify: Meta -> string)
      returns (prs: seq<(string, CheckApp.PrData)>)
      requires DistinctKeys(outdated)
      ensures DistinctKeys(prs)
      ensures forall k :: HasKey(prs, k) <==> HasKey(outdated, k) && HasKey(apps, k)
      ensures forall i :: 0 <= i < |prs| ==> PrFor(apps, outdated, prs[i], isDev, base, body, read, stringify)
    {
      prs := [];
      var i := 0;
      while i < |outdated|
        invariant 0 <= i <= |outdated|
        invariant PrsInvariant(prs, outdated, i, apps, isDev, base, body, read, stringify)
      {
        var (context, variants) := outdated[i];
        DistinctGet(outdated, i);
        var app := Get(apps, context);
        if app.Some? {
          var pr := app.value.BuildPrData(variants, isDev, base, body(context, variants), read, stringify);
          PrAdded(prs, outdated, i, apps, isDev, base, body, read, stringify, pr);
          prs := prs + [(context, pr)];
        } else {
          PrSkipped(prs, outdated, i, apps, isDev, base, body, read, stringify);
        }
        i := i + 1;
      }
      assert outdated[..|outdated|] == outdated;
    }
  }

  /** An entry of `apps` holds the context `loadAppContext` built from its path. */
  predicate LoadedFrom(e: (string, CheckApp.CheckAppContext), readMeta: string -> Option<Meta>)
    reads e.1
  {
    var meta := readMeta(MetaFile(e.0));
    meta.Some? && e.1.context == Dirname(MetaFile(e.0)) && e.1.meta == meta.value && e.1.originalMeta == meta.value
  }

  /** A pull request built by `buildPrData` for an outdated context of `apps`, with that context's outdated variants. */
  predicate PrFor(apps: seq<(string, CheckApp.CheckAppContext)>, outdated: seq<(string, seq<Variants.CheckResult>)>,
                  e: (string, CheckApp.PrData), isDev: bool, base: string, body: (string, seq<Variants.CheckResult>) -> string,
                  read: string -> Option<string>, stringify: Meta -> string)
  {
    var app := Get(apps, e.0);
    var variants := Get(outdated, e.0);
    app.Some? && variants.Some? &&
    e.1.title == CheckApp.PrTitle(isDev, app.value.context, variants.value) &&
    e.1.head == CheckApp.PrHead(isDev, app.value.context) &&
    e.1.labels == CheckApp.PrLabels(isDev, app.value.name) &&
    e.1.base == base && e.1.body == body(e.0, variants.value) &&
    e.1.files == CheckApp.FilesRecord(CheckApp.ProcessedFiles(app.value.context, app.value.originalMeta, variants.value, read, stringify))
  }

  /** What `buildPrDatas` keeps true after the first `i` outdated entries. */
  ghost predicate PrsInvariant(prs: seq<(string, CheckApp.PrData)>, outdated: seq<(string, seq<Variants.CheckResult>)>, i: nat,
                               apps: seq<(string, CheckApp.CheckAppContext)>, isDev: bool, base: string, body: (string, seq<Variants.CheckResult>) -> string,
                               read: string -> Option<string>, stringify: Meta -> string)
  {
    i <= |outdated| && PrKeys(prs, outdated, i, apps) && PrEntries(prs, outdated, apps, isDev, base, body, read, stringify)
  }

  ghost predicate PrKeys(prs: seq<(string, CheckApp.PrData)>, outdated: seq<(string, seq<Variants.CheckResult>)>, i: nat,
                         apps: seq<(string, CheckApp.CheckAppContext)>)
    requires i <= |outdated|
  {
    DistinctKeys(prs) && forall k :: HasKey(prs, k) <==> HasKey(outdated[..i], k) && HasKey(apps, k)
  }

  ghost predicate PrEntries(prs: seq<(string, CheckApp.PrData)>, outdated: seq<(string, seq<Variants.CheckResult>)>,
                            apps: seq<(string, CheckApp.CheckAppContext)>, isDev: bool, base: string, body: (string, seq<Variants.CheckResult>) -> string,
                            read: string -> Option<string>, stringify: Meta -> string)
  {
    forall j :: 0 <= j < |prs| ==> PrFor(apps, outdated, prs[j], isDev, base, body, read, stringify)
  }

  lemma PrAdded(prs: seq<(string, CheckApp.PrData)>, outdated: seq<(string, seq<Variants.CheckResult>)>, i: nat,
                apps: seq<(string, CheckApp.CheckAppContext)>, isDev: bool, base: string, body: (string, seq<Variants.CheckResult>) -> string,
                read: string -> Option<string>, stringify: Meta -> string, pr: CheckApp.PrData)
    requires DistinctKeys(outdated) && i < |outdated| && PrsInvariant(prs, outdated, i, apps, isDev, base, body, read, stringify)
    requires HasKey(apps, outdated[i].0) && PrFor(apps, outdated, (outdated[i].0, pr), isDev, base, body, read, stringify)
    ensures PrsInvariant(prs + [(outdated[i].0, pr)], outdated, i + 1, apps, isDev, base, body, read, stringify)
  {
    PrKeysAdded(prs, outdated, i, apps, pr);
    PrEntriesAdded(prs, outdated, apps, isDev, base, body, read, stringify, (outdated[i].0, pr));
  }

  lemma PrKeysAdded(prs: seq<(string, CheckApp.PrData)>, outdated: seq<(string, seq<Variants.CheckResult>)>, i: nat,
                    apps: seq<(string, CheckApp.CheckAppContext)>, pr: CheckApp.PrData)
    requires DistinctKeys(outdated) && i < |outdated| && PrKeys(prs, outdated, i, apps) && HasKey(apps, outdated[i].0)
    ensures PrKeys(prs + [(outdated[i].0, pr)], outdated, i + 1, apps)
  {
    var c := outdated[i].0;
    KeyPrefixStep(outdated, i);
    DistinctGet(outdated, i);
    PutNew(prs, c, pr);
    PutKeys(prs, c, pr);
    KeysSnoc(prs, (c, pr));
  }

  lemma PrEntriesAdded(prs: seq<(string, CheckApp.PrData)>, outdated: seq<(string, seq<Variants.CheckResult>)>,
                       apps: seq<(string, CheckApp.CheckAppContext)>, isDev: bool, base: string, body: (string, seq<Variants.CheckResult>) -> string,
                       read: string -> Option<string>, stringify: Meta -> string, e: (string, CheckApp.PrData))
    requires PrEntries(prs, outdated, apps, isDev, base, body, read, stringify) && PrFor(apps, outdated, e, isDev, base, body, read, stringify)
    ensures PrEntries(prs + [e], outdated, apps, isDev, base, body, read, stringify)
  {
    forall j | 0 <= j < |prs| + 1 ensures PrFor(apps, outdated, (prs + [e])[j], isDev, base, body, read, stringify) {
      if j < |prs| {
        assert (prs + [e])[j] == prs[j];
      }
    }
  }

  lemma PrSkipped(prs: seq<(string, CheckApp.PrData)>, outdated: seq<(string, seq<Variants.CheckResult>)>, i: nat,
                  apps: seq<(string, CheckApp.CheckAppContext)>, isDev: bool, base: string, body: (string, seq<Variants.CheckResult>) -> string,
                  read: string -> Option<string>, stringify: Meta -> string)
    requires i < |outdated| && PrsInvariant(prs, outdated, i, apps, isDev, base, body, read, stringify)
    requires !HasKey(apps, outdated[i].0)
    ensures PrsInvariant(prs, outdated, i + 1, apps, isDev, base, body, read, stringify)
  {
    KeyPrefixStep(outdated, i);
  }

  /** Every outdated entry is non-empty and lists only variants that need an update. */
  predicate OutdatedEntries(outdated: seq<(string, seq<Variants.CheckResult>)>)
  {
    forall i :: 0 <= i < |outdated| ==>
      |outdated[i].1| > 0 && forall j :: 0 <= j < |outdated[i].1| ==> outdated[i].1[j].needsUpdate
  }

  // ------------------------------------------------------------------ the run, as a function

  /** How one app is checked: from its context, its variants and the cache state, what its check leaves. */
  type AppCheck = (string, seq<(string, ImageVariant)>, map<string, string>, seq<Git.Command>) -> CheckApp.Sweep

  /** `checkVersions` of one app, against the given upstreams and commands. */
  function CheckOf(env: CheckApp.Env): AppCheck
  {
    (context: string, vs: seq<(string, ImageVariant)>, repos: map<string, string>, log: seq<Git.Command>) =>
      CheckApp.SweepOf(vs, context, env, repos, log)
  }

  /** An app's check throws exactly when one of its enabled variants has no `checkver`. */
  predicate Fails(vs: seq<(string, ImageVariant)>)
  {
    exists i :: 0 <= i < |vs| && CheckApp.Throws(vs[i])
  }

  /** The check of `checkVersions` throws where `Fails` says, whatever the cache. */
  ghost predicate ThrowsOnlyWhenFailing(check: AppCheck)
  {
    forall context, vs, repos, log :: check(context, vs, repos, log).thrown <==> Fails(vs)
  }

  lemma CheckOfThrows(env: CheckApp.Env)
    ensures ThrowsOnlyWhenFailing(CheckOf(env))
  {
    forall context, vs, repos, log ensures CheckOf(env)(context, vs, repos, log).thrown <==> Fails(vs) {
      CheckApp.SweepThrown(vs, context, env, repos, log);
    }
  }

  /** What `checkAllVersions` has produced after some apps: the two maps and the repository cache. */
  datatype Run = Run(results: seq<(string, seq<Variants.CheckResult>)>, outdated: seq<(string, seq<Variants.CheckResult>)>,
                     cmds: seq<Git.Command>, repos: map<string, string>)

  /**
   * One app, given by its context and its variants as they were when its
   * check began: a throwing check records nothing but keeps the cache it
   * left; otherwise its results are stored under the context, and the
   * variants needing an update too when there are any.
   */
  function RunStep(prev: Run, app: (string, seq<(string, ImageVariant)>), check: AppCheck): Run
  {
    var s := check(app.0, app.1, prev.repos, prev.cmds);
    if s.thrown then Run(prev.results, prev.outdated, s.cmds, s.repos)
    else
      var stale := NeedingUpdate(s.results);
      Run(Put(prev.results, app.0, s.results), if |stale| > 0 then Put(prev.outdated, app.0, stale) else prev.outdated, s.cmds, s.repos)
  }

  /** The apps checked one after the other, from empty maps and the given cache. */
  function RunOf(apps: seq<(string, seq<(string, ImageVariant)>)>, check: AppCheck,
                 repos: map<string, string>, log: seq<Git.Command>): Run
    decreases |apps|
  {
    if |apps| == 0 then Run([], [], log, repos)
    else RunStep(RunOf(apps[..|apps| - 1], check, repos, log), apps[|apps| - 1], check)
  }

  /** The context and the variants of each app of the list. */
  function Inputs(list: seq<CheckApp.CheckAppContext>): (r: seq<(string, seq<(string, ImageVariant)>)>)
    reads set a | a in list
    ensures |r| == |list| && forall i :: 0 <= i < |list| ==> r[i] == (list[i].context, list[i].meta.variants)
  {
    if |list| == 0 then [] else [(list[0].context, list[0].meta.variants)] + Inputs(list[1..])
  }

  /** No context object appears twice. */
  predicate DistinctApps(list: seq<CheckApp.CheckAppContext>)
  {
    forall i, j :: 0 <= i < j < |list| ==> list[i] != list[j]
  }

  /** The apps from the `k`-th on still hold the variants recorded in `inputs`. */
  ghost predicate Pending(list: seq<CheckApp.CheckAppContext>, inputs: seq<(string, seq<(string, ImageVariant)>)>, k: nat)
    reads set a | a in list
  {
    |inputs| == |list| && k <= |list| &&
    forall j :: k <= j < |list| ==> inputs[j] == (list[j].context, list[j].meta.variants)
  }

  lemma RunPrefix(apps: seq<(string, seq<(string, ImageVariant)>)>, k: nat, check: AppCheck,
                  repos: map<string, string>, log: seq<Git.Command>)
    requires k < |apps|
    ensures RunOf(apps[..k + 1], check, repos, log) == RunStep(RunOf(apps[..k], check, repos, log), apps[k], check)
  {
    assert apps[..k + 1][..k] == apps[..k];
  }

  /** Some app of context `k` among `apps` does not fail. */
  predicate SomeSucceeds(apps: seq<(string, seq<(string, ImageVariant)>)>, k: string)
  {
    exists j :: 0 <= j < |apps| && apps[j].0 == k && !Fails(apps[j].1)
  }

  lemma SomeSucceedsSnoc(apps: seq<(string, seq<(string, ImageVariant)>)>, k: string)
    requires |apps| > 0
    ensures SomeSucceeds(apps, k) <==>
      SomeSucceeds(apps[..|apps| - 1], k) || (apps[|apps| - 1].0 == k && !Fails(apps[|apps| - 1].1))
  {
    var init := apps[..|apps| - 1];
    if SomeSucceeds(init, k) {
      var j :| 0 <= j < |init| && init[j].0 == k && !Fails(init[j].1);
      assert apps[j] == init[j];
    }
    if SomeSucceeds(apps, k) {
      var j :| 0 <= j < |apps| && apps[j].0 == k && !Fails(apps[j].1);
      if j < |init| {
        assert init[j] == apps[j];
      }
    }
  }

  /** A context has results exactly when some app of that context was checked without throwing. */
  lemma {:induction false} RunKeys(apps: seq<(string, seq<(string, ImageVariant)>)>, check: AppCheck,
                                   repos: map<string, string>, log: seq<Git.Command>, k: string)
    requires ThrowsOnlyWhenFailing(check)
    ensures HasKey(RunOf(apps, check, repos, log).results, k) <==> SomeSucceeds(apps, k)
    decreases |apps|
  {
    if |apps| > 0 {
      var init := apps[..|apps| - 1];
      var last := apps[|apps| - 1];
      var prev := RunOf(init, check, repos, log);
      var s := check(last.0, last.1, prev.repos, prev.cmds);
      assert s.thrown <==> Fails(last.1);
      RunKeys(init, check, repos, log, k);
      SomeSucceedsSnoc(apps, k);
      if !s.thrown {
        PutHasKey(prev.results, last.0, s.results, k);
      }
    }
  }

  lemma PutHasKey<V>(m: seq<(string, V)>, k: string, v: V, x: string)
    ensures HasKey(Put(m, k, v), x) <==> HasKey(m, x) || x == k
  {
    PutFacts(m, k, v);
  }

  /** What the `j`-th app's own check yields, from the cache the earlier apps left. */
  function AppOutcome(apps: seq<(string, seq<(string, ImageVariant)>)>, j: nat, check: AppCheck,
                      repos: map<string, string>, log: seq<Git.Command>): Option<seq<Variants.CheckResult>>
    requires j < |apps|
  {
    var prev := RunOf(apps[..j], check, repos, log);
    var s := check(apps[j].0, apps[j].1, prev.repos, prev.cmds);
    if s.thrown then None else Some(s.results)
  }

  /** With distinct contexts, the results of each context are its own app's check, or nothing when it threw. */
  lemma {:induction false} RunLookup(apps: seq<(string, seq<(string, ImageVariant)>)>, check: AppCheck,
                                     repos: map<string, string>, log: seq<Git.Command>, j: nat)
    requires ThrowsOnlyWhenFailing(check)
    requires j < |apps| && forall a, b :: 0 <= a < b < |apps| ==> apps[a].0 != apps[b].0
    ensures Get(RunOf(apps, check, repos, log).results, apps[j].0) == AppOutcome(apps, j, check, repos, log)
    decreases |apps|
  {
    if j < |apps| - 1 {
      DistinctInit(apps);
      RunLookup(apps[..|apps| - 1], check, repos, log, j);
      RunLookupEarlier(apps, check, repos, log, j);
    } else {
      RunLookupLast(apps, check, repos, log);
    }
  }

  lemma DistinctInit(apps: seq<(string, seq<(string, ImageVariant)>)>)
    requires |apps| > 0 && forall a, b :: 0 <= a < b < |apps| ==> apps[a].0 != apps[b].0
    ensures var init := apps[..|apps| - 1]; forall a, b :: 0 <= a < b < |init| ==> init[a].0 != init[b].0
  {
    var init := apps[..|apps| - 1];
    forall a, b | 0 <= a < b < |init| ensures init[a].0 != init[b].0 {
      assert init[a] == apps[a] && init[b] == apps[b];
    }
  }

  /** The last app leaves the results of an earlier, different context as they were. */
  lemma RunLookupEarlier(apps: seq<(string, seq<(string, ImageVariant)>)>, check: AppCheck,
                         repos: map<string, string>, log: seq<Git.Command>, j: nat)
    requires j < |apps| - 1 && forall a, b :: 0 <= a < b < |apps| ==> apps[a].0 != apps[b].0
    requires Get(RunOf(apps[..|apps| - 1], check, repos, log).results, apps[j].0) == AppOutcome(apps[..|apps| - 1], j, check, repos, log)
    ensures Get(RunOf(apps, check, repos, log).results, apps[j].0) == AppOutcome(apps, j, check, repos, log)
  {
    var n := |apps| - 1;
    var init := apps[..n];
    var prev := RunOf(init, check, repos, log);
    var s := check(apps[n].0, apps[n].1, prev.repos, prev.cmds);
    assert RunOf(apps, check, repos, log).results == if s.thrown then prev.results else Put(prev.results, apps[n].0, s.results);
    assert init[j] == apps[j] && init[..j] == apps[..j] && apps[j].0 != apps[n].0;
    assert AppOutcome(init, j, check, repos, log) == AppOutcome(apps, j, check, repos, log);
    if !s.thrown {
      PutGet(prev.results, apps[n].0, s.results, apps[j].0);
    }
  }

  /** The last app's results are its own check's, since no earlier app shares its context. */
  lemma RunLookupLast(apps: seq<(string, seq<(string, ImageVariant)>)>, check: AppCheck,
                      repos: map<string, string>, log: seq<Git.Command>)
    requires ThrowsOnlyWhenFailing(check)
    requires |apps| > 0 && forall a, b :: 0 <= a < b < |apps| ==> apps[a].0 != apps[b].0
    ensures Get(RunOf(apps, check, repos, log).results, apps[|apps| - 1].0) == AppOutcome(apps, |apps| - 1, check, repos, log)
  {
    var n := |apps| - 1;
    var init := apps[..n];
    var prev := RunOf(init, check, repos, log);
    var s := check(apps[n].0, apps[n].1, prev.repos, prev.cmds);
    assert RunOf(apps, check, repos, log).results == if s.thrown then prev.results else Put(prev.results, apps[n].0, s.results);
    assert apps[..n] == init;
    RunKeys(init, check, repos, log, apps[n].0);
    assert !SomeSucceeds(init, apps[n].0) by {
      forall l | 0 <= l < |init| ensures init[l].0 != apps[n].0 {
        assert init[l] == apps[l];
      }
    }
    if !s.thrown {
      PutGet(prev.results, apps[n].0, s.results, apps[n].0);
    }
  }

  // ------------------------------------------------------------------ helpers of the loops

  /** After `k` apps, the maps and the cache are those of the run over the first `k` inputs. */
  ghost predicate Ran(results: seq<(string, seq<Variants.CheckResult>)>, outdated: seq<(string, seq<Variants.CheckResult>)>,
                      cmds: seq<Git.Command>, repos: map<string, string>,
                      inputs: seq<(string, seq<(string, ImageVariant)>)>, k: nat, check: AppCheck,
                      repos0: map<string, string>, log0: seq<Git.Command>)
  {
    k <= |inputs| && Run(results, outdated, cmds, repos) == RunOf(inputs[..k], check, repos0, log0)
  }

  /** What the loops of `checkAllVersions` keep true once the apps in `done` have been checked. */
  ghost predicate Progress(results: seq<(string, seq<Variants.CheckResult>)>, outdated: seq<(string, seq<Variants.CheckResult>)>,
                           cache: Git.RepoCache, list: seq<CheckApp.CheckAppContext>,
                           inputs: seq<(string, seq<(string, ImageVariant)>)>, done: seq<CheckApp.CheckAppContext>,
                           check: AppCheck, repos0: map<string, string>, log0: seq<Git.Command>)
    reads cache, set a | a in list
  {
    Invariant(results, outdated, list, done) && Pending(list, inputs, |done|) &&
    Ran(results, outdated, cache.log, cache.repos, inputs, |done|, check, repos0, log0)
  }

  /** The outer loop of `checkAllVersions`: the chunks, one after the other. */
  method CheckChunks(chunks: seq<seq<CheckApp.CheckAppContext>>, ghost list: seq<CheckApp.CheckAppContext>,
                     ghost inputs: seq<(string, seq<(string, ImageVariant)>)>,
                     cache: Git.RepoCache, up: string -> Variants.Upstream, m: Variants.Matchers,
                     ok: Git.Command -> bool, base64: string -> string)
    returns (results: seq<(string, seq<Variants.CheckResult>)>, outdated: seq<(string, seq<Variants.CheckResult>)>)
    requires Utils.Flatten(chunks) == list && DistinctApps(list) && Pending(list, inputs, 0)
    modifies cache, set a | a in list
    ensures Invariant(results, outdated, list, list)
    ensures var run := RunOf(inputs, CheckOf(CheckApp.Env(up, m, cache.cacheDir, ok, base64)), old(cache.repos), old(cache.log));
      results == run.results && outdated == run.outdated && cache.log == run.cmds && cache.repos == run.repos
  {
    ghost var check := CheckOf(CheckApp.Env(up, m, cache.cacheDir, ok, base64));
    ghost var repos0, log0 := cache.repos, cache.log;
    results, outdated := [], [];
    ghost var done: seq<CheckApp.CheckAppContext> := [];
    ProgressStart(cache, list, inputs, check);
    var index := 0;
    while index < |chunks|
      invariant 0 <= index <= |chunks|
      invariant done + Utils.Flatten(chunks[index..]) == list
      invariant Progress(results, outdated, cache, list, inputs, done, check, repos0, log0)
    {
      ChunkSlice(list, chunks, index, done);
      results, outdated := CheckChunk(chunks[index], list, inputs, done, check, repos0, log0, results, outdated, cache, up, m, ok, base64);
      done := done + chunks[index];
      index := index + 1;
    }
    ProgressEnd(results, outdated, cache, list, inputs, done, check, repos0, log0);
  }

  /** `RunStep` with the check of `checkVersions`, told by what that check returned and the cache it left. */
  lemma CheckOfStep(prev: Run, context: string, vs: seq<(string, ImageVariant)>, env: CheckApp.Env,
                    versions: Option<seq<Variants.CheckResult>>, cmds: seq<Git.Command>, repos: map<string, string>)
    requires var s := CheckApp.SweepOf(vs, context, env, prev.repos, prev.cmds);
      (versions.None? <==> s.thrown) && (versions.Some? ==> versions.value == s.results) && cmds == s.cmds && repos == s.repos
    ensures RunStep(prev, (context, vs), CheckOf(env)) ==
      if versions.None? then Run(prev.results, prev.outdated, cmds, repos)
      else
        var stale := NeedingUpdate(versions.value);
        Run(Put(prev.results, context, versions.value),
            if |stale| > 0 then Put(prev.outdated, context, stale) else prev.outdated, cmds, repos)
  {
  }

  lemma RanStep(results: seq<(string, seq<Variants.CheckResult>)>, outdated: seq<(string, seq<Variants.CheckResult>)>,
                cmds: seq<Git.Command>, repos: map<string, string>, prev: Run,
                inputs: seq<(string, seq<(string, ImageVariant)>)>, k: nat, check: AppCheck,
                repos0: map<string, string>, log0: seq<Git.Command>)
    requires Ran(prev.results, prev.outdated, prev.cmds, prev.repos, inputs, k, check, repos0, log0) && k < |inputs|
    requires Run(results, outdated, cmds, repos) == RunStep(prev, inputs[k], check)
    ensures Ran(results, outdated, cmds, repos, inputs, k + 1, check, repos0, log0)
  {
    RunPrefix(inputs, k, check, repos0, log0);
  }

  lemma ProgressStart(cache: Git.RepoCache, list: seq<CheckApp.CheckAppContext>,
                      inputs: seq<(string, seq<(string, ImageVariant)>)>, check: AppCheck)
    requires Pending(list, inputs, 0)
    ensures Progress([], [], cache, list, inputs, [], check, cache.repos, cache.log)
  {
    assert inputs[..0] == [];
  }

  lemma ProgressEnd(results: seq<(string, seq<Variants.CheckResult>)>, outdated: seq<(string, seq<Variants.CheckResult>)>,
                    cache: Git.RepoCache, list: seq<CheckApp.CheckAppContext>,
                    inputs: seq<(string, seq<(string, ImageVariant)>)>, done: seq<CheckApp.CheckAppContext>,
                    check: AppCheck, repos0: map<string, string>, log0: seq<Git.Command>)
    requires Progress(results, outdated, cache, list, inputs, done, check, repos0, log0) && |done| == |list|
    ensures Invariant(results, outdated, list, list)
    ensures var run := RunOf(inputs, check, repos0, log0);
      results == run.results && outdated == run.outdated && cache.log == run.cmds && cache.repos == run.repos
  {
    assert done == list[..|done|] == list;
    assert inputs[..|done|] == inputs;
  }

  /** The inner loop of `checkAllVersions`: the apps of one chunk, in order. */
  method CheckChunk(chunk: seq<CheckApp.CheckAppContext>, ghost list: seq<CheckApp.CheckAppContext>,
                    ghost inputs: seq<(string, seq<(string, ImageVariant)>)>, ghost done: seq<CheckApp.CheckAppContext>,
                    ghost check: AppCheck, ghost repos0: map<string, string>, ghost log0: seq<Git.Command>,
                    results0: seq<(string, seq<Variants.CheckResult>)>, outdated0: seq<(string, seq<Variants.CheckResult>)>,
                    cache: Git.RepoCache, up: string -> Variants.Upstream, m: Variants.Matchers,
                    ok: Git.Command -> bool, base64: string -> string)
    returns (results: seq<(string, seq<Variants.CheckResult>)>, outdated: seq<(string, seq<Variants.CheckResult>)>)
    requires Progress(results0, outdated0, cache, list, inputs, done, check, repos0, log0) && DistinctApps(list)
    requires |done| + |chunk| <= |list| && list[|done|..|done| + |chunk|] == chunk
    requires check == CheckOf(CheckApp.Env(up, m, cache.cacheDir, ok, base64))
    modifies cache, set a | a in chunk
    ensures Progress(results, outdated, cache, list, inputs, done + chunk, check, repos0, log0)
  {
    results, outdated := results0, outdated0;
    var i := 0;
    assert done + chunk[..0] == done;
    while i < |chunk|
      invariant 0 <= i <= |chunk|
      invariant Progress(results, outdated, cache, list, inputs, done + chunk[..i], check, repos0, log0)
    {
      ghost var seen := done + chunk[..i];
      assert list[|seen|] == chunk[i] by { assert list[|done|..|done| + |chunk|][i] == chunk[i]; }
      results, outdated := CheckOne(chunk[i], list, inputs, seen, check, repos0, log0, results, outdated, cache, up, m, ok, base64);
      assert done + chunk[..i + 1] == seen + [chunk[i]];
      i := i + 1;
    }
    assert chunk[..|chunk|] == chunk;
  }

  /** One app of a chunk: its results are recorded, and it is outdated when some variant needs an update. */
  method CheckOne(app: CheckApp.CheckAppContext, ghost list: seq<CheckApp.CheckAppContext>,
                  ghost inputs: seq<(string, seq<(string, ImageVariant)>)>, ghost done: seq<CheckApp.CheckAppContext>,
                  ghost check: AppCheck, ghost repos0: map<string, string>, ghost log0: seq<Git.Command>,
                  results0: seq<(string, seq<Variants.CheckResult>)>, outdated0: seq<(string, seq<Variants.CheckResult>)>,
                  cache: Git.RepoCache, up: string -> Variants.Upstream, m: Variants.Matchers,
                  ok: Git.Command -> bool, base64: string -> string)
    returns (results: seq<(string, seq<Variants.CheckResult>)>, outdated: seq<(string, seq<Variants.CheckResult>)>)
    requires Progress(results0, outdated0, cache, list, inputs, done, check, repos0, log0) && DistinctApps(list)
    requires |done| < |list| && list[|done|] == app
    requires check == CheckOf(CheckApp.Env(up, m, cache.cacheDir, ok, base64))
    modifies cache, app
    ensures Run(results, outdated, cache.log, cache.repos) ==
      RunStep(Run(results0, outdated0, old(cache.log), old(cache.repos)), (app.context, old(app.meta.variants)), check)
    ensures Progress(results, outdated, cache, list, inputs, done + [app], check, repos0, log0)
  {
    ghost var prev := Run(results0, outdated0, cache.log, cache.repos);
    ghost var variants := app.meta.variants;
    results, outdated := results0, outdated0;
    var versions, _ := app.CheckVersions(cache, up, m, ok, base64);
    if versions.Some? {
      NewResult(results, outdated, list, done, app, versions.value);
      results := Put(results, app.context, versions.value);
      var stale := NeedingUpdate(versions.value);
      if |stale| > 0 {
        outdated := Put(outdated, app.context, stale);
      }
    } else {
      NoResult(results, outdated, list, done, app);
    }
    CheckOfStep(prev, app.context, variants, CheckApp.Env(up, m, cache.cacheDir, ok, base64), versions, cache.log, cache.repos);
    RanStep(results, outdated, cache.log, cache.repos, prev, inputs, |done|, check, repos0, log0);
    forall j | |done| + 1 <= j < |list| ensures list[j].meta == old(list[j].meta) {
      assert list[j] != app;
    }
  }

  /** Every context of the list is one of the map's values. */
  lemma AppsInList(apps: seq<(string, CheckApp.CheckAppContext)>, list: seq<CheckApp.CheckAppContext>)
    requires list == Values(apps)
    ensures forall a :: a in list ==> a in set i | 0 <= i < |apps| :: apps[i].1
  {
    forall a | a in list ensures a in set i | 0 <= i < |apps| :: apps[i].1 {
      var j :| 0 <= j < |list| && list[j] == a;
      assert apps[j].1 == a;
    }
  }

  /** No context object is the value of two entries. */
  predicate DistinctValues(apps: seq<(string, CheckApp.CheckAppContext)>)
  {
    forall i, j :: 0 <= i < j < |apps| ==> apps[i].1 != apps[j].1
  }

  /** Assigning a context object not yet in the map keeps the objects distinct. */
  lemma {:induction false} PutFresh(apps: seq<(string, CheckApp.CheckAppContext)>, k: string, app: CheckApp.CheckAppContext)
    requires DistinctValues(apps) && forall i :: 0 <= i < |apps| ==> apps[i].1 != app
    ensures DistinctValues(Put(apps, k, app))
  {
    if |apps| > 0 && apps[0].0 != k {
      var tail := apps[1..];
      assert forall i :: 0 <= i < |tail| ==> tail[i] == apps[i + 1];
      PutFresh(tail, k, app);
      var rest := Put(tail, k, app);
      PutFacts(tail, k, app);
      assert forall j :: 0 <= j < |rest| ==> rest[j].1 != apps[0].1 by {
        forall j | 0 <= j < |rest| ensures rest[j].1 != apps[0].1 {
          if rest[j] != (k, app) {
            var l :| 0 <= l < |tail| && tail[l] == rest[j];
            assert apps[l + 1] == rest[j];
          }
        }
      }
      var r := Put(apps, k, app);
      assert r == [apps[0]] + rest;
      assert forall i :: 0 < i < |r| ==> r[i] == rest[i - 1];
    } else if |apps| > 0 {
      var r := Put(apps, k, app);
      assert r == [(k, app)] + apps[1..];
      assert forall i :: 0 < i < |r| ==> r[i] == apps[i];
    }
  }

  /** The apps not yet checked start with the `index`-th chunk. */
  lemma ChunkSlice<T>(list: seq<T>, chunks: seq<seq<T>>, index: nat, done: seq<T>)
    requires index < |chunks| && done + Utils.Flatten(chunks[index..]) == list
    ensures |done| + |chunks[index]| <= |list| && list[|done|..|done| + |chunks[index]|] == chunks[index]
    ensures forall a :: a in chunks[index] ==> a in list
    ensures (done + chunks[index]) + Utils.Flatten(chunks[index + 1..]) == list
  {
    assert chunks[index..][1..] == chunks[index + 1..];
    assert list == done + chunks[index] + Utils.Flatten(chunks[index + 1..]);
    assert list[|done|..|done| + |chunks[index]|] == chunks[index];
    forall a | a in chunks[index] ensures a in list {
      var j :| 0 <= j < |chunks[index]| && chunks[index][j] == a;
      assert list[|done| + j] == a;
    }
  }

  /** What `checkAllVersions` keeps true after the apps in `done`. */
  ghost predicate Invariant(results: seq<(string, seq<Variants.CheckResult>)>, outdated: seq<(string, seq<Variants.CheckResult>)>,
                            list: seq<CheckApp.CheckAppContext>, done: seq<CheckApp.CheckAppContext>)
  {
    |done| <= |list| && list[..|done|] == done &&
    KeysInvariant(results, outdated, done) &&
    OutdatedEntries(outdated) &&
    (DistinctContexts(list) ==> outdated == OutdatedOf(results))
  }

  ghost predicate KeysInvariant(results: seq<(string, seq<Variants.CheckResult>)>, outdated: seq<(string, seq<Variants.CheckResult>)>,
                                done: seq<CheckApp.CheckAppContext>)
  {
    DistinctKeys(results) && DistinctKeys(outdated) &&
    (forall k :: HasKey(outdated, k) ==> HasKey(results, k)) &&
    (forall k :: HasKey(results, k) ==> k in Contexts(done))
  }

  /** What the invariant says once every app of the list is done. */
  lemma InvariantDone(results: seq<(string, seq<Variants.CheckResult>)>, outdated: seq<(string, seq<Variants.CheckResult>)>,
                      list: seq<CheckApp.CheckAppContext>)
    requires Invariant(results, outdated, list, list)
    ensures DistinctKeys(results) && DistinctKeys(outdated)
    ensures forall k :: HasKey(outdated, k) ==> HasKey(results, k)
    ensures forall k :: HasKey(results, k) ==> k in Contexts(list)
    ensures OutdatedEntries(outdated)
    ensures DistinctContexts(list) ==> outdated == OutdatedOf(results)
  {
  }

  lemma ContextsSnoc(done: seq<CheckApp.CheckAppContext>, app: CheckApp.CheckAppContext)
    ensures Contexts(done + [app]) == Contexts(done) + [app.context]
  {
    assert Contexts(done + [app]) == Contexts(done) + [app.context];
  }

  lemma NextApp(list: seq<CheckApp.CheckAppContext>, done: seq<CheckApp.CheckAppContext>, app: CheckApp.CheckAppContext)
    requires |done| < |list| && list[..|done|] == done && list[|done|] == app
    ensures |done + [app]| <= |list| && list[..|done + [app]|] == done + [app]
  {
    assert list[..|done| + 1] == list[..|done|] + [app];
  }

  /** An app whose check failed adds nothing. */
  lemma NoResult(results: seq<(string, seq<Variants.CheckResult>)>, outdated: seq<(string, seq<Variants.CheckResult>)>,
                 list: seq<CheckApp.CheckAppContext>, done: seq<CheckApp.CheckAppContext>, app: CheckApp.CheckAppContext)
    requires Invariant(results, outdated, list, done) && |done| < |list| && list[|done|] == app
    ensures Invariant(results, outdated, list, done + [app])
  {
    NextApp(list, done, app);
    ContextsSnoc(done, app);
  }

  lemma NewResultKeys(results: seq<(string, seq<Variants.CheckResult>)>, outdated: seq<(string, seq<Variants.CheckResult>)>,
                      done: seq<CheckApp.CheckAppContext>, app: CheckApp.CheckAppContext, versions: seq<Variants.CheckResult>)
    requires KeysInvariant(results, outdated, done)
    ensures var stale := NeedingUpdate(versions);
      KeysInvariant(Put(results, app.context, versions),
                    if |stale| > 0 then Put(outdated, app.context, stale) else outdated, done + [app])
  {
    var c := app.context;
    var r := Put(results, c, versions);
    var stale := NeedingUpdate(versions);
    var o := if |stale| > 0 then Put(outdated, c, stale) else outdated;
    PutFacts(results, c, versions);
    ContextsSnoc(done, app);
    if |stale| > 0 {
      PutFacts(outdated, c, stale);
    }
  }

  lemma NewOutdatedEntries(outdated: seq<(string, seq<Variants.CheckResult>)>, c: string, versions: seq<Variants.CheckResult>)
    requires OutdatedEntries(outdated)
    ensures var stale := NeedingUpdate(versions);
      OutdatedEntries(if |stale| > 0 then Put(outdated, c, stale) else outdated)
  {
    var stale := NeedingUpdate(versions);
    if |stale| > 0 {
      var o := Put(outdated, c, stale);
      PutEntries(outdated, c, stale);
      forall i | 0 <= i < |o| ensures |o[i].1| > 0 && forall j :: 0 <= j < |o[i].1| ==> o[i].1[j].needsUpdate {
        if o[i] == (c, stale) {
          forall j | 0 <= j < |stale| ensures stale[j].needsUpdate { assert stale[j] in stale; }
        } else {
          var l :| 0 <= l < |outdated| && outdated[l] == o[i];
        }
      }
    }
  }

  lemma NewResultConsistent(results: seq<(string, seq<Variants.CheckResult>)>, outdated: seq<(string, seq<Variants.CheckResult>)>,
                            list: seq<CheckApp.CheckAppContext>, done: seq<CheckApp.CheckAppContext>,
                            app: CheckApp.CheckAppContext, versions: seq<Variants.CheckResult>)
    requires Invariant(results, outdated, list, done) && |done| < |list| && list[|done|] == app
    requires DistinctContexts(list)
    ensures var stale := NeedingUpdate(versions);
      (if |stale| > 0 then Put(outdated, app.context, stale) else outdated) == OutdatedOf(Put(results, app.context, versions))
  {
    var c := app.context;
    var stale := NeedingUpdate(versions);
    assert c !in Contexts(done) by {
      forall j | 0 <= j < |done| ensures Contexts(done)[j] != c {
        assert done[j] == list[j];
      }
    }
    assert !HasKey(results, c);
    PutNew(results, c, versions);
    OutdatedOfAppend(results, c, versions);
    if |stale| > 0 {
      PutNew(outdated, c, stale);
    }
  }

  lemma NewResult(results: seq<(string, seq<Variants.CheckResult>)>, outdated: seq<(string, seq<Variants.CheckResult>)>,
                  list: seq<CheckApp.CheckAppContext>, done: seq<CheckApp.CheckAppContext>,
                  app: CheckApp.CheckAppContext, versions: seq<Variants.CheckResult>)
    requires Invariant(results, outdated, list, done) && |done| < |list| && list[|done|] == app
    ensures var r := Put(results, app.context, versions);
      var stale := NeedingUpdate(versions);
      Invariant(r, if |stale| > 0 then Put(outdated, app.context, stale) else outdated, list, done + [app])
  {
    NextApp(list, done, app);
    NewResultKeys(results, outdated, done, app, versions);
    NewOutdatedEntries(outdated, app.context, versions);
    if DistinctContexts(list) {
      NewResultConsistent(results, outdated, list, done, app, versions);
    }
  }

  /** Every entry of `Put(m, k, v)` is `(k, v)` or an entry of `m`. */
  lemma {:induction false} PutEntries<V>(m: seq<(string, V)>, k: string, v: V)
    ensures forall e :: e in Put(m, k, v) ==> e == (k, v) || e in m
    ensures |Put(m, k, v)| >= 1
    ensures forall i :: 0 <= i < |Put(m, k, v)| ==> Put(m, k, v)[i] == (k, v) || Put(m, k, v)[i] in m
  {
    if |m| > 0 && m[0].0 != k {
      PutEntries(m[1..], k, v);
    }
  }

  lemma KeyPrefixStep<V>(m: seq<(string, V)>, i: nat)
    requires i < |m|
    ensures forall k :: HasKey(m[..i + 1], k) <==> HasKey(m[..i], k) || k == m[i].0
    ensures forall k :: HasKey(m[..i], k) ==> HasKey(m, k)
  {
    assert m[..i + 1] == m[..i] + [m[i]];
    KeysSnoc(m[..i], m[i]);
    forall k | HasKey(m[..i], k) ensures HasKey(m, k) {
      var j :| 0 <= j < |Keys(m[..i])| && Keys(m[..i])[j] == k;
      assert Keys(m)[j] == k;
    }
  }

  lemma DistinctGet<V>(m: seq<(string, V)>, i: nat)
    requires i < |m| && DistinctKeys(m)
    ensures Get(m, m[i].0) == Some(m[i].1)
    ensures !HasKey(m[..i], m[i].0)
  {
    assert Keys(m)[i] == m[i].0;
    var g := Get(m, m[i].0);
    var j :| 0 <= j < |m| && m[j] == (m[i].0, g.value);
    assert j == i;
    forall l | 0 <= l < i ensures Keys(m[..i])[l] != m[i].0 {
      assert Keys(m[..i])[l] == m[l].0;
    }
  }

  // ------------------------------------------------------------------ createPr

  /** What `createPr` collects: the contexts whose pull request was created, with its number and URL. */
  function CreatedPrs(prs: seq<(string, CheckApp.PrData)>, create: CheckApp.PrData -> Option<(nat, string)>): seq<(string, (nat, string))>
    decreases |prs|
  {
    if |prs| == 0 then []
    else
      var init := CreatedPrs(prs[..|prs| - 1], create);
      var e := prs[|prs| - 1];
      var created := create(e.1);
      if created.Some? then Put(init, e.0, created.value) else init
  }

  /** `createPr`: nothing without a token; otherwise each pull request in turn, keeping those created. */
  method CreatePr(token: Option<string>, prs: seq<(string, CheckApp.PrData)>, create: CheckApp.PrData -> Option<(nat, string)>)
    returns (r: Option<seq<(string, (nat, string))>>)
    ensures !Truthy(token) ==> r.None?
    ensures Truthy(token) ==> r == Some(CreatedPrs(prs, create))
  {
    if !Truthy(token) {
      return None;
    }
    var result := [];
    var i := 0;
    while i < |prs|
      invariant 0 <= i <= |prs|
      invariant result == CreatedPrs(prs[..i], create)
    {
      assert prs[..i + 1][..i] == prs[..i];
      var created := create(prs[i].1);
      if created.Some? {
        result := Put(result, prs[i].0, created.value);
      }
      i := i + 1;
    }
    assert prs[..|prs|] == prs;
    r := Some(result);
  }

  /** With distinct contexts, a context has an entry iff its creation returned one, and it is that result. */
  lemma {:induction false} CreatedPrsLookup(prs: seq<(string, CheckApp.PrData)>, create: CheckApp.PrData -> Option<(nat, string)>, k: string)
    requires DistinctKeys(prs)
    ensures Get(CreatedPrs(prs, create), k) == if HasKey(prs, k) then create(Get(prs, k).value) else None
    decreases |prs|
  {
    if |prs| > 0 {
      var init := prs[..|prs| - 1];
      var e := prs[|prs| - 1];
      assert prs == init + [e];
      CreatedPrsLookup(init, create, k);
      GetSnoc(init, e, k);
      KeysSnoc(init, e);
      var created := create(e.1);
      if created.Some? {
        PutGet(CreatedPrs(init, create), e.0, created.value, k);
      }
      if k == e.0 {
        assert !HasKey(init, k) by {
          forall l | 0 <= l < |init| ensures Keys(init)[l] != k {
            assert init[l] == prs[l];
          }
        }
      }
    }
  }

  // ------------------------------------------------------------------ properties

  /** On push, the run exits exactly when no changed file is watched. */
  lemma PushExit(commits: seq<PushCommit>, compared: seq<ComparedFile>)
    ensures var pushed := AddedFiles(commits) + ModifiedFiles(commits);
      var files := if |pushed| == 0 then ComparedNames(compared) else pushed;
      GetCheckVersionContext("push", None, commits, compared).Exit? <==> forall f :: f in files ==> !IsWatchedFile(f)
  {
    var pushed := AddedFiles(commits) + ModifiedFiles(commits);
    var files := if |pushed| == 0 then ComparedNames(compared) else pushed;
    var watched := WatchedFiles(files);
    assert GetCheckVersionContext("push", None, commits, compared).Exit? <==> |watched| == 0;
    if |watched| > 0 {
      assert watched[0] in watched;
    }
  }

  /** The distinct directories of the watched files are exactly the directories holding a watched file. */
  lemma WatchedDirsMembers(files: seq<string>, c: string)
    ensures c in Distinct(Dirnames(WatchedFiles(files))) <==> exists f :: f in files && IsWatchedFile(f) && Dirname(f) == c
  {
    var watched := WatchedFiles(files);
    var d := Dirnames(watched);
    if c in Distinct(d) {
      var i :| 0 <= i < |Distinct(d)| && Distinct(d)[i] == c;
      var l :| 0 <= l < |d| && d[l] == c;
      assert watched[l] in watched;
    }
    if exists f :: f in files && IsWatchedFile(f) && Dirname(f) == c {
      var f :| f in files && IsWatchedFile(f) && Dirname(f) == c;
      var l :| 0 <= l < |watched| && watched[l] == f;
      assert d[l] == c;
    }
  }

  /** Otherwise the selection is the distinct directories of the watched files, in first-seen order. */
  lemma PushSelection(commits: seq<PushCommit>, compared: seq<ComparedFile>)
    ensures var sel := GetCheckVersionContext("push", None, commits, compared);
      var pushed := AddedFiles(commits) + ModifiedFiles(commits);
      var files := if |pushed| == 0 then ComparedNames(compared) else pushed;
      sel.Selected? ==>
        (sel.contexts.Some? &&
         (forall c :: c in sel.contexts.value <==> exists f :: f in files && IsWatchedFile(f) && Dirname(f) == c) &&
         (forall i, j :: 0 <= i < j < |sel.contexts.value| ==> sel.contexts.value[i] != sel.contexts.value[j]))
  {
    var pushed := AddedFiles(commits) + ModifiedFiles(commits);
    var files := if |pushed| == 0 then ComparedNames(compared) else pushed;
    var watched := WatchedFiles(files);
    var sel := GetCheckVersionContext("push", None, commits, compared);
    assert sel == if |watched| == 0 then Exit else Selected(Some(Distinct(Dirnames(watched))));
    forall c ensures c in Distinct(Dirnames(watched)) <==> exists f :: f in files && IsWatchedFile(f) && Dirname(f) == c {
      WatchedDirsMembers(files, c);
    }
  }

  /** A manual run with an empty `context` input selects every app. */
  lemma DispatchSelectsAll(contextInput: Option<string>, commits: seq<PushCommit>, compared: seq<ComparedFile>)
    requires !Truthy(contextInput)
    ensures GetCheckVersionContext("workflow_dispatch", contextInput, commits, compared) == Selected(None)
    ensures GetCheckVersionContext("schedule", contextInput, commits, compared) == Selected(None)
  {
  }

  /** Otherwise it splits the input on commas and trims each part. */
  lemma DispatchSelection(contextInput: Option<string>, commits: seq<PushCommit>, compared: seq<ComparedFile>)
    requires Truthy(contextInput)
    ensures var sel := GetCheckVersionContext("workflow_dispatch", contextInput, commits, compared);
      var parts := Split(contextInput.value, ',');
      sel.Selected? && sel.contexts.Some? && |sel.contexts.value| == |parts| &&
      forall i :: 0 <= i < |parts| ==> sel.contexts.value[i] == Trim(parts[i])
  {
    assert GetCheckVersionContext("workflow_dispatch", contextInput, commits, compared) == Selected(Some(TrimAll(Split(contextInput.value, ','))));
  }

  /** Any other event is an error, which is caught, so every app is scanned. */
  lemma OtherEventScansAll(event: string, contextInput: Option<string>, commits: seq<PushCommit>, compared: seq<ComparedFile>, tree: seq<string>)
    requires event != "workflow_dispatch" && event != "schedule" && event != "push"
    ensures GetCheckVersionContext(event, contextInput, commits, compared) == Failed
    ensures ScanApps(event, tree, Failed) == Some(Dirnames(MetaFiles(tree, event)))
  {
  }

  /** A scheduled run never scans `test/`, and an app comes from a scanned meta of a selected context. */
  lemma ScanAppsShape(event: string, tree: seq<string>, sel: ContextSelection)
    requires !sel.Exit?
    ensures var r := ScanApps(event, tree, sel);
      r.Some? &&
      (forall a :: a in r.value ==> exists f :: f in tree && Scanned(f, event) && Dirname(f) == a) &&
      (sel.Selected? && sel.contexts.Some? && |sel.contexts.value| > 0 ==> forall a :: a in r.value ==> a in sel.contexts.value)
    ensures event == "schedule" ==> forall f :: Scanned(f, event) ==> !StartsWith(f, "test/")
  {
    var r := ScanApps(event, tree, sel);
    var all := Dirnames(MetaFiles(tree, event));
    forall a | a in r.value ensures exists f :: f in tree && Scanned(f, event) && Dirname(f) == a {
      assert a in all;
      var i :| 0 <= i < |all| && all[i] == a;
      assert MetaFiles(tree, event)[i] in MetaFiles(tree, event);
    }
    if event == "schedule" {
      forall f | Scanned(f, event) ensures !StartsWith(f, "test/") {
        var k :| 0 <= k < |ScanRoots(event)| && MatchesRoot(f, ScanRoots(event)[k]);
        assert ScanRoots(event)[k] in ["apps", "base", "sync"];
        assert f[..5] != "test/" by {
          assert f[..|ScanRoots(event)[k]| + 1] == ScanRoots(event)[k] + "/";
          assert f[0] == ScanRoots(event)[k][0];
        }
      }
    }
  }

  /**
   * A scanned path loads under its own name: the context of `<d>/meta.json`
   * is `<d>`, which is how `buildPrDatas` finds the app again by context.
   */
  lemma LoadedContextIsPath(appPath: string)
    requires appPath != "" && !EndsWith(appPath, "meta.json")
    ensures Dirname(MetaFile(appPath)) == appPath
  {
    var f := appPath + "/meta.json";
    assert f[|appPath|] == '/';
    assert f[|appPath| + 1..] == "meta.json";
    LastIndexOfAt(f, '/', |appPath|);
    assert f[..|appPath|] == appPath;
  }

  /** The watched-file test, on names. */
  lemma WatchedFileExamples(dir: string, suffix: string)
    requires suffix != "" && '.' !in suffix
    ensures IsWatchedFile(dir + "/meta.json") && IsWatchedFile(dir + "/Dockerfile")
    ensures IsWatchedFile(dir + "/Dockerfile." + suffix)
  {
    var f := dir + "/Dockerfile." + suffix;
    var p := |dir| + |"/Dockerfile"|;
    assert f[p] == '.';
    assert f[p + 1..] == suffix;
    LastIndexOfAt(f, '.', p);
    assert f[..p] == dir + "/Dockerfile";
  }
}
