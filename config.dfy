/**
 * The action's configuration (action/src/config.ts): the current branch, the
 * inputs of the check-version and resolve-metadata steps, and their
 * once-only caches.
 *
 * `core.getInput` is seen as the string it returns (trimmed, `""` when the
 * input is unset), the process environment as optional strings.
 */
module Config {
  import opened Options
  import opened Strings

  // ------------------------------------------------------------------ current branch

  /** The parts of `gh.context` the branch is read from; `ref` is `None` when `GITHUB_REF` is unset. */
  datatype GhContext = GhContext(eventName: string, ref: Option<string>, baseRef: Option<string>)

  const DefaultBranch := "master"
  const HeadsPrefix := "refs/heads/"

  /** A branch candidate that is empty or still in `refs/` form gives way to the default. */
  function GuardBranch(b: string): string
  {
    if b == "" || StartsWith(b, "refs/") then DefaultBranch else b
  }

  /** The branch before the final guard; `None` when reading `ref` throws. */
  function BranchCandidate(ctx: GhContext): Option<string>
  {
    if ctx.eventName == "push" || ctx.eventName == "workflow_dispatch" then
      if ctx.ref.None? then None else Some(ReplaceFirst(ctx.ref.value, HeadsPrefix, ""))
    else if ctx.eventName == "pull_request" then
      Some(if Truthy(ctx.baseRef) then ctx.baseRef.value else DefaultBranch)
    else if ctx.ref.None? then None
    else if StartsWith(ctx.ref.value, HeadsPrefix) then Some(ReplaceFirst(ctx.ref.value, HeadsPrefix, ""))
    else Some(DefaultBranch)
  }

  /** The branch `getCurrentBranch` returns, the caught error included. */
  function CurrentBranch(ctx: GhContext): string
  {
    var c := BranchCandidate(ctx);
    if c.None? then DefaultBranch else GuardBranch(c.value)
  }

  /** `getCurrentBranch()`, reassigning `branch` down the event chain. */
  method GetCurrentBranch(ctx: GhContext) returns (branch: string)
    ensures branch == CurrentBranch(ctx)
    ensures branch != "" && !StartsWith(branch, "refs/")
  {
    branch := DefaultBranch;
    var threw := false;
    if ctx.eventName == "push" {
      if ctx.ref.None? { threw := true; } else { branch := ReplaceFirst(ctx.ref.value, HeadsPrefix, ""); }
    } else if ctx.eventName == "pull_request" {
      branch := if Truthy(ctx.baseRef) then ctx.baseRef.value else DefaultBranch;
    } else if ctx.eventName == "workflow_dispatch" {
      if ctx.ref.None? { threw := true; } else { branch := ReplaceFirst(ctx.ref.value, HeadsPrefix, ""); }
    } else {
      if ctx.ref.None? {
        threw := true;
      } else if StartsWith(ctx.ref.value, HeadsPrefix) {
        branch := ReplaceFirst(ctx.ref.value, HeadsPrefix, "");
      }
    }
    if threw {
      branch := DefaultBranch;
    } else if branch == "" || StartsWith(branch, "refs/") {
      branch := DefaultBranch;
    }
    CurrentBranchValid(ctx);
  }

  /** The branch is never empty and never a `refs/` name. */
  lemma CurrentBranchValid(ctx: GhContext)
    ensures CurrentBranch(ctx) != "" && !StartsWith(CurrentBranch(ctx), "refs/")
  {
    assert DefaultBranch[..5][0] != "refs/"[0];
  }

  /** `"refs/heads/" + b` drops its prefix. */
  lemma ReplaceHeadsPrefix(b: string)
    ensures ReplaceFirst(HeadsPrefix + b, HeadsPrefix, "") == b
  {
    var s := HeadsPrefix + b;
    assert s[..|HeadsPrefix|] == HeadsPrefix;
    assert s[|HeadsPrefix|..] == b;
  }

  /** On push and manual runs, `refs/heads/<b>` gives `b` (when `b` is a usable name). */
  lemma PushBranch(ctx: GhContext, b: string)
    requires ctx.eventName == "push" || ctx.eventName == "workflow_dispatch"
    requires ctx.ref == Some(HeadsPrefix + b) && b != "" && !StartsWith(b, "refs/")
    ensures CurrentBranch(ctx) == b
  {
    ReplaceHeadsPrefix(b);
  }

  /** Pull requests take the base branch, or the default when it is absent or empty. */
  lemma PullRequestBranch(ctx: GhContext)
    requires ctx.eventName == "pull_request"
    ensures CurrentBranch(ctx) == if Truthy(ctx.baseRef) then GuardBranch(ctx.baseRef.value) else DefaultBranch
  {
    assert DefaultBranch[..5][0] != "refs/"[0];
  }

  /** Other events strip the prefix only from a `refs/heads/` ref; any other ref gives the default. */
  lemma OtherEventBranch(ctx: GhContext)
    requires ctx.eventName !in {"push", "pull_request", "workflow_dispatch"}
    requires ctx.ref.Some? && !StartsWith(ctx.ref.value, HeadsPrefix)
    ensures CurrentBranch(ctx) == DefaultBranch
  {
    assert DefaultBranch[..5][0] != "refs/"[0];
  }

  /** An unset `GITHUB_REF` makes the read throw, and the default is used. */
  lemma MissingRefBranch(ctx: GhContext)
    requires ctx.eventName != "pull_request" && ctx.ref.None?
    ensures CurrentBranch(ctx) == DefaultBranch
  {
  }

  // ------------------------------------------------------------------ inputs

  /** The values `core.getInput` / `core.getBooleanInput` return for the action's inputs. */
  datatype ActionInputs = ActionInputs(context: string, createPr: string, token: string, variants: string, debug: bool)

  /** The environment variables the configuration reads. */
  datatype ProcessEnv = ProcessEnv(
    act: Option<string>,          // ACT
    concurrency: Option<string>,  // CONCURRENCY
    createPr: Option<string>,     // CREATE_PR
    githubToken: Option<string>,  // GITHUB_TOKEN
    cacheDir: Option<string>)     // CACHE_DIR

  /** `createPr`: a boolean, or the string `development`. */
  datatype CreatePr = Create(flag: bool) | Development

  /** `CheckVersionInputs`; a `concurrency` of `None` stands for `NaN`. */
  datatype CheckVersionInputs = CheckVersionInputs(
    token: Option<string>,
    context: Option<string>,
    concurrency: Option<int>,
    createPr: CreatePr,
    debug: Option<bool>)

  /** `ResolveMetadataInputs` */
  datatype ResolveMetadataInputs = ResolveMetadataInputs(context: string, variants: string, debug: Option<bool>)

  /** `process.env.ACT === 'true'` */
  predicate IsAct(env: ProcessEnv) { env.act == Some("true") }

  /** `process.env.CACHE_DIR || '.git-cache'` */
  function CacheDir(env: ProcessEnv): (r: string)
    ensures r != ""
  {
    if Truthy(env.cacheDir) then env.cacheDir.value else ".git-cache"
  }

  /** The manual `debug` input, the runner's debug flag, or a local act run. */
  predicate IsDebug(eventName: string, inputs: ActionInputs, coreDebug: bool, env: ProcessEnv)
  {
    (eventName == "workflow_dispatch" && inputs.debug) || coreDebug || IsAct(env)
  }

  /**
   * The unary `+` on a string, for the forms the model covers: surrounding
   * white space is ignored, the empty string is 0 and a run of decimal digits
   * is its value; anything else is `None` (`NaN`).
   */
  function ToNumber(s: string): (r: Option<int>)
    ensures r.Some? ==> r.value >= 0
  {
    var t := Trim(s);
    if t == "" then Some(0)
    else if AllDigits(t) then Some(DigitsValue(t))
    else None
  }

  /** `createPrMap[createPr] ?? ['push', 'schedule'].includes(eventName)` */
  function CreatePrOf(input: string, eventName: string): CreatePr
  {
    if input == "true" then Create(true)
    else if input == "false" then Create(false)
    else if input == "development" then Development
    else Create(eventName == "push" || eventName == "schedule")
  }

  /**
   * The object `getCheckVersionConfig` builds. `core.getInput` never returns
   * `null`, so the `?? process.env.CREATE_PR` fallback is never taken.
   */
  function CheckVersionInputsOf(eventName: string, inputs: ActionInputs, env: ProcessEnv): CheckVersionInputs
  {
    CheckVersionInputs(
      if inputs.token != "" then Some(inputs.token) else env.githubToken,
      if inputs.context == "all" then None else Some(inputs.context),
      if env.concurrency.Some? then ToNumber(env.concurrency.value) else Some(if IsAct(env) then 1 else 3),
      CreatePrOf(inputs.createPr, eventName),
      if eventName == "workflow_dispatch" then Some(inputs.debug) else None)
  }

  function ResolveMetadataInputsOf(eventName: string, inputs: ActionInputs): ResolveMetadataInputs
  {
    ResolveMetadataInputs(inputs.context, inputs.variants, if eventName == "workflow_dispatch" then Some(inputs.debug) else None)
  }

  /** The module-level caches `_checkVersionConfig` and `_resolveMetadataConfig`. */
  class ConfigStore {
    var checkVersion: Option<CheckVersionInputs>
    var resolveMetadata: Option<ResolveMetadataInputs>

    constructor()
      ensures checkVersion == None && resolveMetadata == None
    {
      checkVersion := None;
      resolveMetadata := None;
    }

    /** `getCheckVersionConfig()`: the first call's object, whatever the later inputs. */
    method GetCheckVersionConfig(eventName: string, inputs: ActionInputs, env: ProcessEnv) returns (r: CheckVersionInputs)
      modifies this
      ensures old(checkVersion).Some? ==> r == old(checkVersion).value
      ensures old(checkVersion).None? ==> r == CheckVersionInputsOf(eventName, inputs, env)
      ensures checkVersion == Some(r) && resolveMetadata == old(resolveMetadata)
    {
      if checkVersion.None? {
        checkVersion := Some(CheckVersionInputsOf(eventName, inputs, env));
      }
      r := checkVersion.value;
    }

    /** `getResolveMetadataConfig()`, cached the same way. */
    method GetResolveMetadataConfig(eventName: string, inputs: ActionInputs) returns (r: ResolveMetadataInputs)
      modifies this
      ensures old(resolveMetadata).Some? ==> r == old(resolveMetadata).value
      ensures old(resolveMetadata).None? ==> r == ResolveMetadataInputsOf(eventName, inputs)
      ensures resolveMetadata == Some(r) && checkVersion == old(checkVersion)
    {
      if resolveMetadata.None? {
        resolveMetadata := Some(ResolveMetadataInputsOf(eventName, inputs));
      }
      r := resolveMetadata.value;
    }
  }

  // ------------------------------------------------------------------ properties

  /** `all` selects every app (no context); any other input, the empty one included, is kept. */
  lemma ContextAll(eventName: string, inputs: ActionInputs, env: ProcessEnv)
    ensures var c := CheckVersionInputsOf(eventName, inputs, env).context;
      (c.None? <==> inputs.context == "all") && (c.Some? ==> c.value == inputs.context)
  {
  }

  /** Only the three listed strings are mapped; anything else creates a PR exactly on push and schedule. */
  lemma CreatePrMapping(input: string, eventName: string)
    ensures CreatePrOf(input, eventName) == Development <==> input == "development"
    ensures CreatePrOf(input, eventName) == Create(true) <==>
      input == "true" || (input !in {"true", "false", "development"} && (eventName == "push" || eventName == "schedule"))
    ensures CreatePrOf(input, eventName) == Create(false) <==>
      input == "false" || (input !in {"true", "false", "development"} && eventName != "push" && eventName != "schedule")
  {
  }

  /** The `CREATE_PR` variable has no effect. */
  lemma CreatePrEnvIgnored(eventName: string, inputs: ActionInputs, env: ProcessEnv, createPr: Option<string>)
    ensures CheckVersionInputsOf(eventName, inputs, env.(createPr := createPr)) == CheckVersionInputsOf(eventName, inputs, env)
  {
  }

  /** Without `CONCURRENCY`, one app at a time under act and three otherwise. */
  lemma ConcurrencyDefault(eventName: string, inputs: ActionInputs, env: ProcessEnv)
    requires env.concurrency.None?
    ensures CheckVersionInputsOf(eventName, inputs, env).concurrency == Some(if IsAct(env) then 1 else 3)
  {
  }

  /** A decimal `CONCURRENCY` is taken as is, 0 included, which the chunking cannot handle. */
  lemma ConcurrencyFromEnv(eventName: string, inputs: ActionInputs, env: ProcessEnv, n: nat)
    requires env.concurrency == Some(NatToString(n))
    ensures CheckVersionInputsOf(eventName, inputs, env).concurrency == Some(n)
  {
    var s := NatToString(n);
    assert IsTrimmed(s) by { assert !IsSpace(s[0]) && !IsSpace(s[|s| - 1]); }
    TrimOfTrimmed(s);
    DigitsValueOfNatToString(n);
  }

  /** An empty or blank `CONCURRENCY` counts as 0 as well. */
  lemma ConcurrencyBlank(eventName: string, inputs: ActionInputs, env: ProcessEnv)
    requires env.concurrency.Some? && Trim(env.concurrency.value) == ""
    ensures CheckVersionInputsOf(eventName, inputs, env).concurrency == Some(0)
  {
  }

  /** The token input wins over `GITHUB_TOKEN` unless it is empty. */
  lemma TokenChoice(eventName: string, inputs: ActionInputs, env: ProcessEnv)
    ensures CheckVersionInputsOf(eventName, inputs, env).token == if inputs.token == "" then env.githubToken else Some(inputs.token)
  {
  }

  /** `debug` is read only for manual runs. */
  lemma DebugOnlyOnDispatch(eventName: string, inputs: ActionInputs, env: ProcessEnv)
    ensures CheckVersionInputsOf(eventName, inputs, env).debug.Some? <==> eventName == "workflow_dispatch"
    ensures ResolveMetadataInputsOf(eventName, inputs).debug.Some? <==> eventName == "workflow_dispatch"
  {
  }
}
