/**
 * The legacy version check (action/src/actions/check-version.ts): which
 * `meta.json` files are accepted and why the others are rejected, which
 * metas an event selects, and the pure parts of the job summary (how results
 * are bucketed, grouped, ordered and labelled), together with the context
 * extraction from a pull request title (action/src/actions/resolve-meta.ts).
 *
 * The glob result, `fs.existsSync`, `validateMeta` and `localeCompare` are
 * parameters; a meta file whose read throws is `Failed` with the message.
 */
module CheckVersion {
  import opened Options
  import opened Strings
  import Assoc
  import Sorting
  import MetaApp
  import VersionHandler

  // ------------------------------------------------------------------ metas

  /** The `dockerMeta` fields the scan reads and defaults. */
  datatype RawDocker = RawDocker(dockerfile: Option<string>, context: Option<string>, push: Option<bool>)

  /** A parsed `meta.json`, as far as the scan looks at it; `skip` is its truthiness. */
  datatype RawMeta = RawMeta(name: Option<string>, kind: Option<string>, skip: bool, docker: Option<RawDocker>)

  /** `MetaDetail`: `meta` is `None` for the `{}` stored after a failed read. */
  datatype MetaDetail = MetaDetail(context: string, meta: Option<RawMeta>, reason: Option<string>)

  /** A globbed meta file and the outcome of reading it as JSON. */
  datatype MetaFile = MetaFile(path: string, read: VersionHandler.Outcome<RawMeta>)

  const NoDocker := RawDocker(None, None, None)

  /** The directory of `<ctx>/meta.json` is `ctx`. */
  lemma DirnameOfMetaFile(ctx: string)
    requires ctx != ""
    ensures Dirname(ctx + "/meta.json") == ctx
  {
    var f := ctx + "/meta.json";
    assert f[|ctx|] == '/' && f[|ctx| + 1..] == "meta.json";
    LastIndexOfAt(f, '/', |ctx|);
    assert f[..|ctx|] == ctx;
  }

  predicate KnownType(kind: Option<string>)
  {
    kind == Some("app") || kind == Some("base") || kind == Some("sync")
  }

  /** The path of the Dockerfile the scan looks for. */
  function DockerfilePath(context: string, m: RawMeta): string
  {
    var docker := m.docker.GetOr(NoDocker);
    MetaApp.JoinPath(context, if Truthy(docker.dockerfile) then docker.dockerfile.value else "Dockerfile")
  }

  /** The rejection reason of a parsed meta: the first of the six checks that fails. */
  function Reason(context: string, m: RawMeta, present: string -> bool, valid: RawMeta -> bool): Option<string>
  {
    var docker := m.docker.GetOr(NoDocker);
    var dockerfile := DockerfilePath(context, m);
    if !Truthy(docker.dockerfile) then Some("No Dockerfile specified in dockerMeta")
    else if !present(dockerfile) then Some("Dockerfile not found: " + dockerfile)
    else if m.skip then Some("Meta marked as skipped")
    else if !valid(m) then Some("Invalid meta format")
    else if !Truthy(m.name) || Trim(m.name.value) == "" then Some("Meta name is required")
    else if !KnownType(m.kind) then Some("Invalid meta type: " + MetaApp.Render(m.kind))
    else None
  }

  /** The defaults applied to an accepted meta's `dockerMeta`. */
  function WithDefaults(context: string, m: RawMeta): RawMeta
  {
    var docker := m.docker.GetOr(NoDocker);
    m.(docker := Some(RawDocker(
      Some(if Truthy(docker.dockerfile) then docker.dockerfile.value else "Dockerfile"),
      Some(if Truthy(docker.context) then docker.context.value else context),
      Some(docker.push.GetOr(true)))))
  }

  /** The detail recorded for one meta file. */
  function Detail(f: MetaFile, present: string -> bool, valid: RawMeta -> bool): MetaDetail
  {
    var context := Dirname(f.path);
    match f.read
    case Failed(msg) => MetaDetail(context, None, Some("Failed to read meta.json: " + msg))
    case Ok(m) =>
      var reason := Reason(context, m, present, valid);
      MetaDetail(context, Some(if reason.None? then WithDefaults(context, m) else m), reason)
  }

  /** A meta is accepted exactly when all six checks pass, in which case its Dockerfile is named. */
  lemma ReasonNone(context: string, m: RawMeta, present: string -> bool, valid: RawMeta -> bool)
    ensures Reason(context, m, present, valid).None? <==>
      m.docker.Some? && Truthy(m.docker.value.dockerfile)
      && present(MetaApp.JoinPath(context, m.docker.value.dockerfile.value))
      && !m.skip && valid(m)
      && Truthy(m.name) && Trim(m.name.value) != "" && KnownType(m.kind)
  {
  }

  /** An earlier failing check hides the later ones: a skipped meta is never reported invalid. */
  lemma SkipBeforeValidation(context: string, m: RawMeta, present: string -> bool, valid: RawMeta -> bool)
    requires m.docker.Some? && Truthy(m.docker.value.dockerfile) && present(DockerfilePath(context, m)) && m.skip
    ensures Reason(context, m, present, valid) == Some("Meta marked as skipped")
  {
  }

  /** A missing type is reported as `undefined`. */
  lemma MissingType(context: string, m: RawMeta, present: string -> bool, valid: RawMeta -> bool)
    requires m.kind.None?
    requires m.docker.Some? && Truthy(m.docker.value.dockerfile) && present(DockerfilePath(context, m))
    requires !m.skip && valid(m) && Truthy(m.name) && Trim(m.name.value) != ""
    ensures Reason(context, m, present, valid) == Some("Invalid meta type: undefined")
  {
    assert "Invalid meta type: " + MetaApp.Render(m.kind) == "Invalid meta type: undefined";
  }

  /**
   * Defaults touch only accepted metas: a rejected meta is stored as read; an
   * accepted one keeps its Dockerfile (the `Dockerfile` default never applies),
   * gets the directory as context when it has none, and `push` true when unset.
   */
  lemma DetailDefaults(f: MetaFile, present: string -> bool, valid: RawMeta -> bool)
    ensures var d := Detail(f, present, valid);
      d.context == Dirname(f.path)
      && (d.reason.None? <==> f.read.Ok? && Reason(d.context, f.read.value, present, valid).None?)
      && (f.read.Failed? ==> d.meta.None?)
      && (f.read.Ok? && d.reason.Some? ==> d.meta == Some(f.read.value))
      && (d.reason.None? ==>
            var before := f.read.value.docker.value;
            var after := d.meta.value.docker.value;
            d.meta.value.name == f.read.value.name && d.meta.value.kind == f.read.value.kind
            && after.dockerfile == before.dockerfile
            && after.context == Some(if Truthy(before.context) then before.context.value else d.context)
            && after.push == Some(if before.push.Some? then before.push.value else true))
  {
  }

  // ------------------------------------------------------------------ the scan

  /** `allMetaSet` after the first `n` files: a Map from context to detail. */
  function Details(files: seq<MetaFile>, present: string -> bool, valid: RawMeta -> bool): seq<(string, MetaDetail)>
  {
    if |files| == 0 then []
    else
      var d := Detail(files[|files| - 1], present, valid);
      Assoc.Put(Details(files[..|files| - 1], present, valid), d.context, d)
  }

  /** The detail of the last file in `files` whose directory is `c`. */
  function LastDetail(files: seq<MetaFile>, c: string, present: string -> bool, valid: RawMeta -> bool): Option<MetaDetail>
  {
    if |files| == 0 then None
    else if Dirname(files[|files| - 1].path) == c then Some(Detail(files[|files| - 1], present, valid))
    else LastDetail(files[..|files| - 1], c, present, valid)
  }

  /** Looking a context up finds the detail of the last file in that directory. */
  lemma {:induction false} DetailsLookup(files: seq<MetaFile>, c: string, present: string -> bool, valid: RawMeta -> bool)
    ensures Assoc.Get(Details(files, present, valid), c) == LastDetail(files, c, present, valid)
  {
    if |files| > 0 {
      var d := Detail(files[|files| - 1], present, valid);
      DetailsLookup(files[..|files| - 1], c, present, valid);
      Assoc.PutGet(Details(files[..|files| - 1], present, valid), d.context, d, c);
    }
  }

  /** Each context appears once. */
  lemma {:induction false} DetailsDistinct(files: seq<MetaFile>, present: string -> bool, valid: RawMeta -> bool)
    ensures Assoc.DistinctKeys(Details(files, present, valid))
  {
    if |files| > 0 {
      var d := Detail(files[|files| - 1], present, valid);
      DetailsDistinct(files[..|files| - 1], present, valid);
      Assoc.PutKeys(Details(files[..|files| - 1], present, valid), d.context, d);
    }
  }

  /** The loop of `getApps` that fills `allMetaSet`. */
  method CollectMetaDetails(files: seq<MetaFile>, present: string -> bool, valid: RawMeta -> bool)
    returns (all: seq<(string, MetaDetail)>)
    ensures all == Details(files, present, valid)
    ensures Assoc.DistinctKeys(all)
  {
    all := [];
    var i := 0;
    while i < |files|
      invariant 0 <= i <= |files|
      invariant all == Details(files[..i], present, valid)
    {
      var d := Detail(files[i], present, valid);
      assert files[..i + 1][..i] == files[..i];
      all := Assoc.Put(all, d.context, d);
      i := i + 1;
    }
    assert files[..i] == files;
    DetailsDistinct(files, present, valid);
  }

  /** `validMetas`: the metas of the details without a reason, in order. */
  function ValidMetas(ds: seq<MetaDetail>): (r: seq<RawMeta>)
    ensures |r| <= |ds|
  {
    if |ds| == 0 then []
    else (if ds[0].reason.None? && ds[0].meta.Some? then [ds[0].meta.value] else []) + ValidMetas(ds[1..])
  }

  lemma {:induction false} InValidMetas(ds: seq<MetaDetail>, k: nat)
    requires k < |ds| && ds[k].reason.None? && ds[k].meta.Some?
    ensures ds[k].meta.value in ValidMetas(ds)
  {
    if k > 0 {
      InValidMetas(ds[1..], k - 1);
    }
  }

  /** `resolveContext`: the meta of a known context without a reason. */
  function ResolveContext(all: seq<(string, MetaDetail)>, c: string): Option<RawMeta>
  {
    match Assoc.Get(all, c)
    case None => None
    case Some(d) => if d.reason.Some? then None else d.meta
  }

  /** A context resolves exactly when it is known and its meta was accepted, and then to a valid meta. */
  lemma ResolveContextSound(all: seq<(string, MetaDetail)>, c: string)
    requires WellFormed(all)
    ensures ResolveContext(all, c).Some? <==> Assoc.Get(all, c).Some? && Assoc.Get(all, c).value.reason.None?
    ensures ResolveContext(all, c).Some? ==> ResolveContext(all, c).value in ValidMetas(Assoc.Values(all))
  {
    var g := Assoc.Get(all, c);
    if g.Some? && g.value.reason.None? {
      var k :| 0 <= k < |all| && all[k] == (c, g.value);
      InValidMetas(Assoc.Values(all), k);
    }
  }

  lemma DetailWellFormed(f: MetaFile, present: string -> bool, valid: RawMeta -> bool)
    ensures Detail(f, present, valid).reason.None? ==> Detail(f, present, valid).meta.Some?
  {
  }

  /** An accepted detail always carries its meta. */
  predicate WellFormed(all: seq<(string, MetaDetail)>)
  {
    forall k :: 0 <= k < |all| ==> all[k].1.reason.None? ==> all[k].1.meta.Some?
  }

  lemma {:induction false} DetailsWellFormed(files: seq<MetaFile>, present: string -> bool, valid: RawMeta -> bool)
    ensures WellFormed(Details(files, present, valid))
  {
    if |files| > 0 {
      var d := Detail(files[|files| - 1], present, valid);
      var prev := Details(files[..|files| - 1], present, valid);
      DetailsWellFormed(files[..|files| - 1], present, valid);
      Assoc.PutIn(prev, d.context, d);
      var all := Assoc.Put(prev, d.context, d);
      DetailWellFormed(files[|files| - 1], present, valid);
      forall k | 0 <= k < |all| && all[k].1.reason.None? ensures all[k].1.meta.Some? {
        if all[k] != (d.context, d) {
          var j :| 0 <= j < |prev| && prev[j] == all[k];
          assert WellFormed(prev);
        }
      }
    }
  }

  // ------------------------------------------------------------------ selection

  /** The event that triggered the run, with what each case reads from the payload. */
  datatype Trigger =
    | Dispatch(contextInput: string)              // input `context`
    | Push(message: string, modified: seq<string>) // head commit message, first commit's modified files
    | OtherEvent

  /** Modified `<dir>/meta.json` files resolved to metas, unresolved ones dropped. */
  function ModifiedMetas(all: seq<(string, MetaDetail)>, files: seq<string>): (r: seq<RawMeta>)
    ensures |r| <= |files|
  {
    if |files| == 0 then []
    else
      var here := if EndsWith(files[0], "/meta.json") then ResolveContext(all, Dirname(files[0])) else None;
      (if here.Some? then [here.value] else []) + ModifiedMetas(all, files[1..])
  }

  /** The group of `\w+\(([^)]+)\):` in `s` when the match starts at `i`. */
  function ContextAt(s: string, i: nat): Option<string>
    requires i <= |s|
  {
    var w := WordRun(s[i..]);
    var j := i + |w|;
    if |w| == 0 || j >= |s| || s[j] != '(' then None
    else
      var g := NonParenRun(s[j + 1..]);
      var k := j + 1 + |g|;
      if |g| == 0 || k + 1 >= |s| || s[k] != ')' || s[k + 1] != ':' then None
      else Some(g)
  }

  /** The longest prefix of `s` without `)`. */
  function NonParenRun(s: string): (r: string)
    ensures StartsWith(s, r) && ')' !in r
    ensures |r| == |s| || s[|r|] == ')'
  {
    if |s| > 0 && s[0] != ')' then [s[0]] + NonParenRun(s[1..]) else ""
  }

  /** The capture group of the leftmost match of `\w+\(([^)]+)\):` at or after `i`. */
  function MatchContextFrom(s: string, i: nat): Option<string>
    requires i <= |s|
    decreases |s| - i
  {
    if i == |s| then None
    else if ContextAt(s, i).Some? then ContextAt(s, i)
    else MatchContextFrom(s, i + 1)
  }

  function MatchContext(s: string): (r: Option<string>)
    ensures r.Some? ==> r.value != "" && ')' !in r.value
  {
    MatchFound(s, 0);
    MatchContextFrom(s, 0)
  }

  lemma {:induction false} MatchFound(s: string, i: nat)
    requires i <= |s|
    ensures var r := MatchContextFrom(s, i); r.Some? ==> r.value != "" && ')' !in r.value
    decreases |s| - i
  {
    if i < |s| && ContextAt(s, i).None? {
      MatchFound(s, i + 1);
    }
  }

  /** The metas `getApps` returns once there is at least one valid meta. */
  function Select(t: Trigger, all: seq<(string, MetaDetail)>): seq<RawMeta>
  {
    var valid := ValidMetas(Assoc.Values(all));
    match t
    case Dispatch(c) =>
      if c == "" || c == "all" then valid
      else (match ResolveContext(all, c) case Some(m) => [m] case None => [])
    case Push(message, modified) =>
      if !Contains(message, "force check") then valid
      else
        var mods := ModifiedMetas(all, modified);
        if |mods| > 0 then mods
        else
          var fromMessage := match MatchContext(message) case Some(c) => ResolveContext(all, c) case None => None;
          if fromMessage.Some? then [fromMessage.value] else valid
    case OtherEvent => valid
  }

  /** `getApps()`: the selected metas and every detail. */
  function GetApps(files: seq<MetaFile>, present: string -> bool, valid: RawMeta -> bool, t: Trigger): (seq<RawMeta>, seq<MetaDetail>)
  {
    if |files| == 0 then ([], [])
    else
      var all := Details(files, present, valid);
      var details := Assoc.Values(all);
      if |ValidMetas(details)| == 0 then ([], details) else (Select(t, all), details)
  }

  lemma {:induction false} ModifiedMetasValid(all: seq<(string, MetaDetail)>, files: seq<string>)
    requires WellFormed(all)
    ensures forall m :: m in ModifiedMetas(all, files) ==> m in ValidMetas(Assoc.Values(all))
  {
    if |files| > 0 {
      ModifiedMetasValid(all, files[1..]);
      ResolveContextSound(all, Dirname(files[0]));
    }
  }

  /** Whatever the event, every meta `getApps` selects is one of the valid metas. */
  lemma SelectedAreValid(files: seq<MetaFile>, present: string -> bool, valid: RawMeta -> bool, t: Trigger)
    ensures var (metas, details) := GetApps(files, present, valid, t);
      forall m :: m in metas ==> m in ValidMetas(details)
  {
    if |files| > 0 {
      var all := Details(files, present, valid);
      DetailsWellFormed(files, present, valid);
      match t
      case Dispatch(c) => ResolveContextSound(all, c);
      case Push(message, modified) =>
        ModifiedMetasValid(all, modified);
        if MatchContext(message).Some? {
          ResolveContextSound(all, MatchContext(message).value);
        }
      case OtherEvent =>
    }
  }

  /** A dispatch names all apps (empty or `all`) or one context, which gives one meta or none. */
  lemma DispatchSelection(all: seq<(string, MetaDetail)>, c: string)
    ensures var r := Select(Dispatch(c), all);
      (c == "" || c == "all" ==> r == ValidMetas(Assoc.Values(all)))
      && (c != "" && c != "all" ==> |r| <= 1 && (|r| == 1 <==> ResolveContext(all, c).Some?))
  {
  }

  /**
   * A push without `force check` checks everything; with it, modified meta files
   * win, then the context named in the message, then everything.
   */
  lemma PushSelection(all: seq<(string, MetaDetail)>, message: string, modified: seq<string>)
    ensures var r := Select(Push(message, modified), all);
      var mods := ModifiedMetas(all, modified);
      var named := if MatchContext(message).Some? then ResolveContext(all, MatchContext(message).value) else None;
      (!Contains(message, "force check") ==> r == ValidMetas(Assoc.Values(all)))
      && (Contains(message, "force check") && |mods| > 0 ==> r == mods)
      && (Contains(message, "force check") && |mods| == 0 && named.Some? ==> r == [named.value])
      && (Contains(message, "force check") && |mods| == 0 && named.None? ==> r == ValidMetas(Assoc.Values(all)))
  {
  }

  // ------------------------------------------------------------------ titles

  lemma WordRunStops(x: string, y: string)
    requires AllWordChars(x) && |y| > 0 && !IsWordChar(y[0])
    ensures WordRun(x + y) == x
    decreases |x|
  {
    if |x| > 0 {
      assert (x + y)[1..] == x[1..] + y;
      WordRunStops(x[1..], y);
    } else {
      assert x + y == y;
    }
  }

  lemma NonParenRunStops(x: string, y: string)
    requires ')' !in x && |y| > 0 && y[0] == ')'
    ensures NonParenRun(x + y) == x
    decreases |x|
  {
    if |x| > 0 {
      assert (x + y)[1..] == x[1..] + y;
      assert x[0] in x;
      WordRunStopsHelper(x);
      NonParenRunStops(x[1..], y);
    } else {
      assert x + y == y;
    }
  }

  lemma WordRunStopsHelper(x: string)
    requires |x| > 0 && ')' !in x
    ensures ')' !in x[1..]
  {
    forall k | 0 <= k < |x[1..]| ensures x[1..][k] != ')' {
      assert x[1..][k] == x[k + 1];
    }
  }

  /** `title.match(/^chore\(([^)]+)\): update version to/)?.[1]` */
  function TitleContext(title: string): Option<string>
  {
    if !StartsWith(title, "chore(") then None
    else
      var g := NonParenRun(title[6..]);
      if g != "" && StartsWith(title[6 + |g|..], "): update version to") then Some(g) else None
  }

  const UpdateTail := "): update version to "

  /** The title the legacy handler gives its pull request carries the context back to `resolveMeta`. */
  lemma TitleContextOfPrTitle(ctx: string, v: string)
    requires ctx != "" && ')' !in ctx
    ensures TitleContext(VersionHandler.PrTitle("chore", ctx, v)) == Some(ctx)
  {
    var t := VersionHandler.PrTitle("chore", ctx, v);
    var rest := UpdateTail + v;
    assert t == "chore(" + (ctx + rest);
    assert t[6..] == ctx + rest;
    NonParenRunStops(ctx, rest);
    assert t[6 + |ctx|..] == rest;
    assert rest[..20] == "): update version to";
  }

  /** A mock pull request's title is rejected by `resolveMeta`. */
  lemma TitleContextOfMockTitle(ctx: string, v: string)
    ensures TitleContext(VersionHandler.PrTitle("mock", ctx, v)) == None
  {
    var t := VersionHandler.PrTitle("mock", ctx, v);
    assert t[..6][0] == 'm' != "chore("[0];
  }

  /** A word, a parenthesised group without `)` and a colon match at the start. */
  lemma ContextAtStart(w: string, g: string, rest: string)
    requires |w| > 0 && AllWordChars(w) && g != "" && ')' !in g
    requires |rest| >= 2 && rest[0] == ')' && rest[1] == ':'
    ensures ContextAt(w + "(" + g + rest, 0) == Some(g)
  {
    var s := w + "(" + g + rest;
    assert s[0..] == w + ("(" + g + rest);
    WordRunStops(w, "(" + g + rest);
    assert s[|w|] == '(';
    assert s[|w| + 1..] == g + rest;
    NonParenRunStops(g, rest);
    assert s[|w| + 1 + |g|] == ')' && s[|w| + 2 + |g|] == ':';
  }

  /** The legacy commit message names its context to the `force check` fallback. */
  lemma MatchContextOfPrTitle(ctx: string, v: string)
    requires ctx != "" && ')' !in ctx
    ensures MatchContext(VersionHandler.PrTitle("chore", ctx, v)) == Some(ctx)
  {
    var rest := UpdateTail + v;
    assert rest[0] == ')' && rest[1] == ':';
    assert VersionHandler.PrTitle("chore", ctx, v) == "chore" + "(" + ctx + rest;
    assert AllWordChars("chore");
    ContextAtStart("chore", ctx, rest);
  }

  // ------------------------------------------------------------------ results

  datatype RunStatus = Succeeded | Errored | Skipped

  /** What a result's `pr` holds after PR creation. */
  datatype PrState = PrState(htmlUrl: Option<string>, error: Option<string>)

  /** A `CheckResult` as the summary reads it. */
  datatype Checked = Checked(
    context: string, kind: string, hasUpdate: bool, status: RunStatus,
    error: Option<string>, pr: Option<PrState>, oldVersion: Option<string>, version: Option<string>)

  /** The rank `sortAppsByStatus` gives a result: error, update, skipped, up to date. */
  function Priority(r: Checked): (p: nat)
    ensures p <= 3
    ensures p == 0 <==> r.status == Errored
    ensures p == 1 <==> r.status == Succeeded && r.hasUpdate
    ensures p == 2 <==> r.status == Skipped
  {
    if r.status == Errored then 0
    else if r.hasUpdate && r.status == Succeeded then 1
    else if r.status == Skipped then 2
    else 3
  }

  /** The comparator of `sortAppsByStatus`, given `localeCompare(x, y) <= 0` as `localeLeq`. */
  function StatusOrder(localeLeq: (string, string) -> bool): (Checked, Checked) -> bool
  {
    (a: Checked, b: Checked) => Priority(a) < Priority(b) || (Priority(a) == Priority(b) && localeLeq(a.context, b.context))
  }

  lemma StatusOrderTotal(localeLeq: (string, string) -> bool)
    requires Sorting.TotalPreorder(localeLeq)
    ensures Sorting.TotalPreorder(StatusOrder(localeLeq))
  {
    var leq := StatusOrder(localeLeq);
    forall a: Checked, b: Checked ensures leq(a, b) || leq(b, a) {
      assert localeLeq(a.context, b.context) || localeLeq(b.context, a.context);
    }
    forall a: Checked, b: Checked, c: Checked | leq(a, b) && leq(b, c) ensures leq(a, c) {
      if Priority(a) == Priority(b) == Priority(c) {
        assert localeLeq(a.context, b.context) && localeLeq(b.context, c.context);
      }
    }
  }

  /** `sortAppsByStatus`: sorts the results in place. */
  method SortAppsByStatus(apps: array<Checked>, localeLeq: (string, string) -> bool)
    requires Sorting.TotalPreorder(localeLeq)
    modifies apps
    ensures Sorting.Sorted(apps[..], StatusOrder(localeLeq))
    ensures multiset(apps[..]) == multiset(old(apps[..]))
  {
    StatusOrderTotal(localeLeq);
    Sorting.SortInPlace(apps, StatusOrder(localeLeq));
  }

  /** In a sorted list errors come first, then updates, then skipped, then up-to-date results; ties by context. */
  lemma SortedByStatus(s: seq<Checked>, localeLeq: (string, string) -> bool)
    requires Sorting.Sorted(s, StatusOrder(localeLeq))
    ensures forall i, j :: 0 <= i < j < |s| ==> Priority(s[i]) <= Priority(s[j])
    ensures forall i, j :: 0 <= i < j < |s| && Priority(s[i]) == Priority(s[j]) ==> localeLeq(s[i].context, s[j].context)
  {
    forall i, j | 0 <= i < j < |s| ensures Priority(s[i]) <= Priority(s[j]) {
      assert StatusOrder(localeLeq)(s[i], s[j]);
    }
  }

  // ------------------------------------------------------------------ labels

  /** `text.substring(0, n)` followed by `...` only when something was cut. */
  function Truncate(text: string, n: nat): (r: string)
    ensures |text| <= n ==> r == text
    ensures |text| > n ==> |r| == n + 3 && r[..n] == text[..n] && r[n..] == "..."
  {
    Take(text, n) + (if |text| > n then "..." else "")
  }

  datatype StatusBadge = ErrorBadge(message: string) | SkippedBadge | UpdateBadge | LatestBadge

  /** `generateStatusInfo(app, app.error)` */
  function StatusInfo(r: Checked): StatusBadge
  {
    if r.status == Errored then ErrorBadge(if Truthy(r.error) then Truncate(r.error.value, 50) else "未知错误")
    else if r.status == Skipped then SkippedBadge
    else if r.hasUpdate && r.status == Succeeded then UpdateBadge
    else LatestBadge
  }

  /** The badge names the result's rank, and an error message is cut to at most 53 characters. */
  lemma StatusInfoMatchesPriority(r: Checked)
    ensures var b := StatusInfo(r);
      (b.ErrorBadge? <==> Priority(r) == 0) && (b.UpdateBadge? <==> Priority(r) == 1)
      && (b.SkippedBadge? <==> Priority(r) == 2) && (b.LatestBadge? <==> Priority(r) == 3)
      && (b.ErrorBadge? && !Truthy(r.error) ==> b.message == "未知错误")
      && (b.ErrorBadge? && Truthy(r.error) ==> |b.message| <= 53 && (|r.error.value| <= 50 ==> b.message == r.error.value))
  {
  }

  function RenderStatus(b: StatusBadge): string
  {
    match b
    case ErrorBadge(m) => "❌ 错误<br/><small>" + m + "</small>"
    case SkippedBadge => "⏭️ 跳过检查"
    case UpdateBadge => "🔄 **可更新**"
    case LatestBadge => "✅ 最新版本"
  }

  datatype VersionCell = OldOnly(shown: string) | SkippedAt(shown: string) | Changed(from: string, shown: string) | Current(shown: string)

  /** `meta?.version || 'N/A'` */
  function OrNA(v: Option<string>): string { if Truthy(v) then v.value else "N/A" }

  /** `generateVersionInfo`: the old version for errors, old and new for updates, else the current one. */
  function VersionInfo(r: Checked): VersionCell
  {
    if r.status == Errored then OldOnly(OrNA(r.oldVersion))
    else if r.status == Skipped then SkippedAt(OrNA(r.version))
    else if r.hasUpdate && r.status == Succeeded then Changed(OrNA(r.oldVersion), OrNA(r.version))
    else Current(OrNA(r.version))
  }

  /** Only an update shows two versions; an error shows the version it started from. */
  lemma VersionInfoCases(r: Checked)
    ensures var c := VersionInfo(r);
      (c.Changed? <==> Priority(r) == 1)
      && (c.OldOnly? <==> Priority(r) == 0)
      && (c.shown == if Priority(r) == 0 then OrNA(r.oldVersion) else OrNA(r.version))
      && (c.Changed? ==> c.from == OrNA(r.oldVersion))
      && c.shown != ""
  {
  }

  function RenderVersion(c: VersionCell): string
  {
    match c
    case OldOnly(v) => "`" + v + "`"
    case SkippedAt(v) => "`" + v + "` (跳过)"
    case Changed(o, v) => "`" + o + "` → **`" + v + "`**"
    case Current(v) => "`" + v + "`"
  }

  datatype PrBadge = NotApplicable | ViewPr(url: string) | PrError(message: string) | CreationDisabled | PendingCreation

  /** `generatePRStatus(pr, enableCreatePr, hasUpdate, status)` */
  function PrStatus(pr: Option<PrState>, enableCreatePr: bool, hasUpdate: bool, status: RunStatus): PrBadge
  {
    if status == Skipped || status == Errored then NotApplicable
    else if !hasUpdate || status != Succeeded then NotApplicable
    else if pr.Some? && Truthy(pr.value.htmlUrl) then ViewPr(pr.value.htmlUrl.value)
    else if pr.Some? && Truthy(pr.value.error) then PrError(Truncate(pr.value.error.value, 30))
    else if !enableCreatePr then CreationDisabled
    else PendingCreation
  }

  /**
   * Only updated results have a PR cell, exactly the second rank of the sort;
   * then a URL wins over an error, an error over the disabled input, and the
   * disabled input over pending.
   */
  lemma PrStatusPrecedence(r: Checked, enableCreatePr: bool)
    ensures var b := PrStatus(r.pr, enableCreatePr, r.hasUpdate, r.status);
      var url := r.pr.Some? && Truthy(r.pr.value.htmlUrl);
      var err := r.pr.Some? && Truthy(r.pr.value.error);
      (b == NotApplicable <==> Priority(r) != 1)
      && (Priority(r) == 1 && url ==> b == ViewPr(r.pr.value.htmlUrl.value))
      && (Priority(r) == 1 && !url && err ==> b.PrError? && |b.message| <= 33)
      && (Priority(r) == 1 && !url && !err ==> (b == CreationDisabled <==> !enableCreatePr))
      && (Priority(r) == 1 && !url && !err ==> (b == PendingCreation <==> enableCreatePr))
  {
  }

  function RenderPr(b: PrBadge): string
  {
    match b
    case NotApplicable => "N/A"
    case ViewPr(url) => "[✅ 查看PR](" + url + ")"
    case PrError(m) => "❌ " + m
    case CreationDisabled => "⚠️ 已禁用"
    case PendingCreation => "⏳ 待创建"
  }

  // ------------------------------------------------------------------ buckets

  /** The results of one rank, in order. */
  function WithPriority(rs: seq<Checked>, p: nat): (r: seq<Checked>)
    ensures |r| <= |rs|
    ensures forall x :: x in r <==> x in rs && Priority(x) == p
  {
    if |rs| == 0 then [] else (if Priority(rs[0]) == p then [rs[0]] else []) + WithPriority(rs[1..], p)
  }

  /** The summary's `results.forEach`, pushing each result into its bucket. */
  method Buckets(results: seq<Checked>) returns (updated: seq<Checked>, errors: seq<Checked>, upToDate: seq<Checked>, skipped: seq<Checked>)
    ensures errors == WithPriority(results, 0) && updated == WithPriority(results, 1)
    ensures skipped == WithPriority(results, 2) && upToDate == WithPriority(results, 3)
  {
    updated, errors, upToDate, skipped := [], [], [], [];
    var i := |results|;
    while i > 0
      invariant 0 <= i <= |results|
      invariant errors == WithPriority(results[i..], 0) && updated == WithPriority(results[i..], 1)
      invariant skipped == WithPriority(results[i..], 2) && upToDate == WithPriority(results[i..], 3)
    {
      i := i - 1;
      var r := results[i];
      assert results[i..][1..] == results[i + 1..];
      if r.status == Errored {
        errors := [r] + errors;
      } else if r.status == Succeeded {
        if r.hasUpdate { updated := [r] + updated; } else { upToDate := [r] + upToDate; }
      } else if r.status == Skipped {
        skipped := [r] + skipped;
      }
    }
    assert results[0..] == results;
  }

  /** The four buckets split the results: every result is in exactly one. */
  lemma {:induction false} BucketsPartition(rs: seq<Checked>)
    ensures |WithPriority(rs, 0)| + |WithPriority(rs, 1)| + |WithPriority(rs, 2)| + |WithPriority(rs, 3)| == |rs|
  {
    if |rs| > 0 {
      BucketsPartition(rs[1..]);
    }
  }

  /** `checkVersion`'s counters: updates by `hasUpdate` alone, errors, and up-to-date successes. */
  function UpdatedStat(rs: seq<Checked>): (r: seq<Checked>)
    ensures forall x :: x in r <==> x in rs && x.hasUpdate
  {
    if |rs| == 0 then [] else (if rs[0].hasUpdate then [rs[0]] else []) + UpdatedStat(rs[1..])
  }

  /**
   * A failed check that had already found a new version (as the legacy
   * handler's `createResult` reports it) counts as an update and as an error
   * in `checkVersion`, but lands only in the error bucket of the summary.
   */
  lemma UpdateAndErrorOverlap(r: Checked)
    requires r.hasUpdate && r.status == Errored
    ensures r in UpdatedStat([r]) && r in WithPriority([r], 0)
    ensures r !in WithPriority([r], 1)
  {
  }

  /** The legacy handler does produce such results. */
  lemma HandlerFailureAfterUpdate(info: VersionHandler.VersionInfo, current: VersionHandler.AppMeta, original: VersionHandler.AppMeta, data: VersionHandler.Payload)
    requires info.version != original.version
    ensures var c := VersionHandler.CreateResult(info, current, original, false, data);
      c.hasUpdate && c.status == VersionHandler.Error
  {
  }

  // ------------------------------------------------------------------ groups

  /** The results of one type, in order. */
  function OfKind(rs: seq<Checked>, kind: string): (r: seq<Checked>)
    ensures forall x :: x in r <==> x in rs && x.kind == kind
  {
    if |rs| == 0 then []
    else OfKind(rs[..|rs| - 1], kind) + (if rs[|rs| - 1].kind == kind then [rs[|rs| - 1]] else [])
  }

  /** `groupAppsByType`, specified: the Map after the first `|rs|` results. */
  function Grouped(rs: seq<Checked>): seq<(string, seq<Checked>)>
  {
    if |rs| == 0 then []
    else
      var g := Grouped(rs[..|rs| - 1]);
      var a := rs[|rs| - 1];
      Assoc.Put(g, a.kind, Assoc.Get(g, a.kind).GetOr([]) + [a])
  }

  /** Each type present maps to its results in their original order. */
  lemma {:induction false} GroupedGet(rs: seq<Checked>, kind: string)
    ensures Assoc.Get(Grouped(rs), kind) == if |OfKind(rs, kind)| == 0 then None else Some(OfKind(rs, kind))
  {
    if |rs| > 0 {
      var front := rs[..|rs| - 1];
      var g := Grouped(front);
      var a := rs[|rs| - 1];
      var v := Assoc.Get(g, a.kind).GetOr([]) + [a];
      assert Grouped(rs) == Assoc.Put(g, a.kind, v);
      GroupedGet(front, kind);
      Assoc.PutGet(g, a.kind, v, kind);
      if kind == a.kind {
        assert Assoc.Get(g, a.kind).GetOr([]) == OfKind(front, kind);
        assert OfKind(rs, kind) == OfKind(front, kind) + [a];
      } else {
        assert OfKind(rs, kind) == OfKind(front, kind);
      }
    }
  }

  /** `groupAppsByType(apps)` */
  method GroupAppsByType(apps: seq<Checked>) returns (grouped: seq<(string, seq<Checked>)>)
    ensures grouped == Grouped(apps)
    ensures forall kind :: Assoc.Get(grouped, kind) == if |OfKind(apps, kind)| == 0 then None else Some(OfKind(apps, kind))
  {
    grouped := [];
    var i := 0;
    while i < |apps|
      invariant 0 <= i <= |apps|
      invariant grouped == Grouped(apps[..i])
    {
      var app := apps[i];
      assert apps[..i + 1][..i] == apps[..i];
      var before := grouped;
      if !Assoc.HasKey(grouped, app.kind) {
        grouped := Assoc.Put(grouped, app.kind, []);
        Assoc.PutGet(before, app.kind, [], app.kind);
      }
      assert Assoc.Get(grouped, app.kind) == Some(Assoc.Get(before, app.kind).GetOr([]));
      var list := Assoc.Get(grouped, app.kind).value + [app];
      if !Assoc.HasKey(before, app.kind) {
        Assoc.PutPut(before, app.kind, [], list);
      }
      grouped := Assoc.Put(grouped, app.kind, list);
      i := i + 1;
    }
    assert apps[..i] == apps;
    forall kind ensures Assoc.Get(grouped, kind) == if |OfKind(apps, kind)| == 0 then None else Some(OfKind(apps, kind)) {
      GroupedGet(apps, kind);
    }
  }
}
