# apps-image: a verified model of the version checker and its tooling

This project models, in Dafny, the logic at the core of the apps-image
repository. For each application image the repository decides whether the
upstream project has a newer version, rewrites the application's files and
meta data, and proposes a pull request; a second action turns an updated meta
into a Docker build matrix. Around it sit the scripts that generate the docs
catalogue, the local task helpers and the workflow manifest rewriter.

The model follows the program's structure, one module per source file:

- `Template` — the three near-copies of `resolveTemplate`: a left-to-right
  scan for `$key$`, `{{key}}` and `{key}`, a literal replacement of the old
  value, and the un-escape step of the build action.
- `Utils` — `chunkArray`, `escapeRegex`, `detectRepo`, `detectRepoName`,
  `escapeHtml`, `normalizeVersion`, `parseVersionLoose`, `get`/`set`/`pick`/`omit`.
- `Git` — the repository cache as a class holding a map from directory to
  state, the clone/update command sequences with one re-clone, tag listing,
  and the parsing of `--shortstat`, `--name-only` and `--oneline` output.
- `Variants` — `VariantContext`: the tag, SHA and file strategies and `needsUpdate`.
- `CheckApp`, `CheckApps` — `CheckAppContext` and `CheckAppsManager`:
  variant checks, file processing, pull-request data, context selection,
  chunked checking and outdated filtering.
- `MetaApp`, `MetaApps` — `MetaAppContext` and `MetaAppsManager`: the
  Docker matrix builder and the title/input parsing that feeds it.
- `Config`, `Logging` — `config.ts` and `logger.ts`.
- `VersionHandler`, `CheckVersion`, `ResolveMeta` — the legacy path:
  `AppVersionHandler`, `actions/check-version.ts` and `useResolveMeta`.
- `GenerateData` — `scripts/generate-data.js`: JSONC stripping, schema and
  variant defaults, the catalogue entries and their order.
- `MiseUtils` — the per-task history and log paths of `mise-tasks/lib/utils.mjs`.
- `Manifest` — `action/src/manifest.ts`: the context list and the rewrite
  of the marker region in the three workflows.
- `DocsApps`, `DocsFilters`, `DocsStats` — the docs catalogue, its filters
  and its counts.
- `Options`, `Strings`, `Assoc`, `Lists`, `Sorting`, `Json`, `Schema` —
  shared vocabulary: `Option`, JavaScript string operations, insertion-ordered
  records (`Map` and object key order), `filter`, sorting, JSON values and the
  meta types.

Objects whose methods update their fields (`Git`, `VariantContext`,
`CheckAppContext`, `CheckAppsManager`, `Logger`, `AppVersionHandler`, the
filter refs) are classes with `modifies` clauses; algorithms that loop are
methods with loop invariants, each proved against a specification function,
and the properties the program relies on are lemmas about those functions.

Git, the file system, the environment, GitHub and the foreign libraries are
parameters of the model: a command answer or file read is an `Option`
(`None` when the command fails or the file is missing), and `semver.valid`,
user-supplied regular expressions, JSON parsing and serialisation, base64,
the schema validator and `localeCompare` are function parameters (the last
one required to be a total preorder).

## Model

| member | source | states |
|---|---|---|
| Utils.ChunkArray | action/src/utils.ts:129-135 | the chunks concatenate back to the array; every chunk holds 1 to `size` elements and all but the last exactly `size`; there are no chunks exactly when the array is empty, and `ceil(n/size)` chunks otherwise |
| Utils.EscapeRegex | action/src/utils.ts:140-142 | the result is one character longer per regular-expression special character of the input |
| Utils.EscapeRegexRoundTrip | action/src/utils.ts:140-142 | removing the inserted backslashes gives the input back |
| Utils.EscapeRegexPlain | action/src/utils.ts:140-142 | a string without special characters is returned unchanged |
| Utils.DetectRepo | action/src/utils.ts:149-151 | the result is always an `http://` or `https://` URL; a URL is returned as it is, anything else gets the `https://github.com/` prefix |
| Utils.DetectRepoIdempotent | action/src/utils.ts:149-151 | completing an already completed repository changes nothing |
| Utils.MatchOwnerRepoOf | action/src/utils.ts:163 | the GitHub URL pattern captures the two slash-free segments after the host, dropping one `.git` suffix and any sub-path |
| Utils.HttpsGithub | action/src/utils.ts:163-167 | a `https://github.com/` URL whose tail matches yields `owner/repo` from the two captures |
| Utils.DetectRepoNameOfShorthand | action/src/utils.ts:149-175 | expanding an `owner/repo` shorthand with `detectRepo` and extracting the name gives the shorthand back |
| Utils.DetectRepoNameOfCloneUrl | action/src/utils.ts:159-167 | a clone URL `https://github.com/owner/repo.git/sub` yields `owner/repo` |
| Utils.EscapeHtmlRoundTrip | action/src/utils.ts:180-190 | decoding the five entities gives the text back, so no information is lost |
| Utils.EscapeHtmlSafe | action/src/utils.ts:180-190 | no raw `<`, `>`, `"` or `'` is left in the escaped text |
| Utils.NormalizeVersion | action/src/utils.ts:122-124 | exactly one leading `v` is removed, and nothing else changes |
| Utils.NormalizeVersionIdempotence | action/src/utils.ts:122-124 | normalising twice equals normalising once exactly when the version does not start with `vv` |
| Utils.ParseVersionLoose | action/src/utils.ts:192-206 | a match has a major part of decimal digits with no leading zero (it went through `parseInt` and `String`) |
| Utils.ParseVersionLooseNull | action/src/utils.ts:192-200 | the result is null exactly when the string holds no digit |
| Utils.ParseVersionLooseOfTriple | action/src/utils.ts:192-206 | a plain `a.b.c` version parses back to its three numbers |
| Utils.PathKeys | action/src/utils.ts:26-31 | a string path becomes one key per `.`-separated segment |
| Utils.Get | action/src/utils.ts:25-44 | the loop over the path computes the reference walk `GetSpec` |
| Utils.GetStopsAtNullish | action/src/utils.ts:35-39 | once the walk reaches `null` or `undefined` with keys left, the default is returned |
| Utils.GetAfterSet | action/src/utils.ts:25-63 | on a path through objects, `set` succeeds and `get` on the same path returns the written value (the default when that value is `undefined`) |
| Utils.Pick | action/src/utils.ts:5-13 | the result has exactly the listed keys, each holding the data's value (`undefined` when absent) |
| Utils.Omit | action/src/utils.ts:15-23 | the result has every key of the data except the listed ones, with the same values |
| Template.ResolveTemplate | action/src/context/checkAppContext.ts:289-315 | without data the template is returned as it is; otherwise the loop over the entries computes `Resolve`, the entries applied in record order (the `Unescaping` and `Legacy` dialects are the copies at action/src/context/metaAppContext.ts:48-79 and action/src/hooks/handlers/AppVersionHandler.ts:506-529) |
| Template.ResolveIdentities | action/src/context/checkAppContext.ts:290-300 | an empty record leaves the template unchanged, and an entry with no values is skipped |
| Template.ReplacePlaceholdersClean | action/src/context/checkAppContext.ts:302-305 | text without `$` and without `{` holds no placeholder and is not changed |
| Template.ReplacePlaceholdersAt | action/src/context/checkAppContext.ts:302-305 | each of `$key$`, `{{key}}` and `{key}` after clean text is replaced by the new value, `{{key}}` as a whole |
| Template.OnlyPlaceholdersWithoutOldValue | action/src/context/checkAppContext.ts:305-311 | with no old value, or an empty one, only the placeholders change (a missing new value becomes `''`) |
| Template.OldValueReplaced | action/src/context/checkAppContext.ts:305-311 | with a non-empty old value, every literal occurrence of it is replaced by the new value after the placeholders |
| Template.ShortShaRewritesFullSha | action/src/context/checkAppContext.ts:151-155 | with the data order `version`, `sha`, `fullSha`, a hard-coded old full SHA ends up as the new short SHA followed by the old tail |
| Template.UndefinedValueStillProcessed | action/src/context/metaAppContext.ts:58-67 | a key whose only value is `undefined` still replaces its placeholders by `''`, and the un-escape still runs |
| Template.UnescapeStep | action/src/context/metaAppContext.ts:69-71 | every `\{`, `\$` and `\}` loses its backslash |
| Template.UnescapeNoBackslash | action/src/context/metaAppContext.ts:69-71 | text without backslashes is unchanged by the un-escape |
| Template.EscapeProtectsOnlyFromEarlierKeys | action/src/context/metaAppContext.ts:57-77 | an escaped `\{\{w\}\}` stays the literal `{{w}}` when `w` is the only key, but is replaced by `w`'s value once an earlier key has run |
| Template.ReplacePlaceholdersEscaped | action/src/context/metaAppContext.ts:62-64 | no placeholder of a backslash-free key starts anywhere inside `\{\{w\}\}` |
| Template.DollarFormReplaced | action/src/context/checkAppContext.ts:302-305 | a leading `$key$` becomes the new value and the scan goes on after it |
| Template.DoubleBraceFormReplaced | action/src/context/checkAppContext.ts:302-305 | a leading `{{key}}` becomes the new value and the scan goes on after it |
| Template.BraceFormReplaced | action/src/context/checkAppContext.ts:302-305 | a leading `{key}` of a word key becomes the new value and the scan goes on after it |
| Git.SanitizeContext | action/src/git.ts:32 | the context keeps its length, and every character outside `[A-Za-z0-9_-]` becomes `_` |
| Git.GetRepoNameNoSlash | action/src/git.ts:246-257 | neither the `owner-repo` name nor the base64 fallback contains `/` |
| Git.GetRepoNameFallbackAlphabet | action/src/git.ts:246-257 | when the URL does not end in two path segments, the fallback name uses only word characters |
| Git.GetRepoNameOfUrl | action/src/git.ts:246-252 | a URL ending in `/owner/repo` is named `owner-repo` after dropping one `.git` suffix |
| Git.GetRepoNameOfCloneUrl | action/src/git.ts:246-252 | `https://github.com/owner/repo.git` and `https://github.com/owner/repo` get the same cache directory `owner-repo` |
| Git.GetRepoNameOfGitUrl | action/src/git.ts:246-252 | `https://github.com/owner/repo.git` is named `owner-repo` |
| Git.GetRepoNameOfPlainUrl | action/src/git.ts:246-252 | `https://github.com/owner/repo` is named `owner-repo` |
| Git.CacheDirNameShape | action/src/git.ts:30-33 | the directory name is one path component that starts with the repository name, followed by `_` and the sanitised context when a context is given |
| Git.EffectAllKeeps | action/src/git.ts:91-127 | commands that neither clone nor remove leave the set of cached repositories unchanged |
| Git.ClonePlanShape | action/src/git.ts:58-86 | `git clone` gets `--branch` exactly when a branch is given; `targetVersion` is checked out only after a successful clone and only when it differs from the branch; the call succeeds exactly when every command did |
| Git.ClonePlanEffect | action/src/git.ts:58-86 | after a successful clone the directory is cached, cloned from the URL |
| Git.UpdatePlanShape | action/src/git.ts:91-127 | the update fetches first; with a branch it never removes or re-clones; without one, `rm -rf` runs exactly when the fetch succeeded and `git pull` failed, and the only clone comes right after fetch, pull and rm; a failed update failed on its last command |
| Git.UpdatePlanEffect | action/src/git.ts:91-127 | after a successful update the directory is still, or again, in the cache |
| Git.RepoCache.constructor | action/src/git.ts:21-24 | the cache starts with the given directory and repositories and an empty command log |
| Git.RepoCache.Exec | action/src/git.ts:281-287 | one command is appended to the log and applied to the cache; its success is the oracle's answer |
| Git.RepoCache.CheckoutVersion | action/src/git.ts:145-156 | the log and cache grow by the modelled checkout commands |
| Git.RepoCache.CloneRepo | action/src/git.ts:58-86 | the log grows by exactly the clone plan, the cache is its effect, and the result is the plan's success |
| Git.RepoCache.UpdateRepo | action/src/git.ts:91-127 | the log grows by exactly the update plan, the cache is its effect, and the result is the plan's success |
| Git.RepoCache.CloneOrUpdateRepo | action/src/git.ts:29-53 | an existing directory is updated and a missing one cloned; the path is returned exactly when that succeeded, and the directory is then cached |
| Git.GetAllTags | action/src/git.ts:159-164 | every tag is a non-empty single line |
| Git.GetAllTagsOfLines | action/src/git.ts:159-164 | tag names printed one per line are listed back unchanged and in order |
| Git.ChangedFileCount | action/src/git.ts:324 | the count is 0 exactly when the trimmed output is empty |
| Git.ChangedFileCountLines | action/src/git.ts:324 | otherwise it is one more than the number of line breaks |
| Git.RecentCommits | action/src/git.ts:337-340 | at most ten commits, none of them empty |
| Git.CollectCommitInfo | action/src/git.ts:296-352 | nothing is returned exactly when the SHA is unchanged or a query fails; otherwise the record is built from the trimmed answers, the diff range being `old..sha` when an old SHA is given |
| Git.LogFields | action/src/git.ts:307-311 | the three log fields are stored trimmed |
| Git.DiffCounts | action/src/git.ts:325-334 | the counts are those of the first `N insertion(s)(+)` and `N deletion(s)(-)`, 0 when absent |
| Git.TrimOfTrimmedTrim | action/src/git.ts:311 | trimming a trimmed output again changes nothing |
| Git.CountedMatch | action/src/git.ts:330-331 | at the start of `N word(s)(sign)` the count pattern matches and captures `N` |
| Git.ShortStatRoundTrip | action/src/git.ts:325-334 | parsing a `--shortstat` line as git prints it recovers the insertion and deletion counts, 0 for a part git leaves out |
| Git.CollectedInfoCounts | action/src/git.ts:318-344 | when git answers `--shortstat` with such a line, the record carries its counts |
| Variants.FindFirst | action/src/variant.ts:139 | `find` returns nothing exactly when no element satisfies the test |
| Variants.FindFirstIndex | action/src/variant.ts:139 | what `find` returns is the first element satisfying the test |
| Variants.VersionFromTagChoice | action/src/variant.ts:129-167 | a tag result comes from the first listed tag that qualifies (semver-valid, or matching `tagPattern` when one is given), with one leading `v` stripped and that tag's commit as SHA |
| Variants.VersionFromTagsChoice | action/src/variant.ts:136-167 | the same, for a given list of tags |
| Variants.SelectTagFirst | action/src/variant.ts:136-150 | no tag is selected exactly when none qualifies; otherwise the selected tag is the first qualifying one |
| Variants.VersionFromTagNone | action/src/variant.ts:131-156 | no tags, or no qualifying tag, yields nothing |
| Variants.VersionFromShaShort | action/src/variant.ts:170-177 | the SHA strategy yields a result exactly when the head is known; the SHA is trimmed and the version is its first seven characters |
| Variants.VersionFromFileShape | action/src/variant.ts:182-216 | the file strategy needs a `file`, a non-empty extracted version that is semver-valid; the version is the cleaned one without a leading `v`, and the SHA comes from the commit search for the term `version` |
| Variants.ExtractedVersionBranches | action/src/variant.ts:195-206 | `package.json` files are read as JSON whatever the regex; other files use the regex when one is given, else the whole trimmed file |
| Variants.VersionByTypeDispatch | action/src/variant.ts:107-126 | any type other than `tag`, `sha` or `version` yields nothing (the thrown error is caught by `check`) |
| Variants.WithFullRepoShape | action/src/variant.ts:32-34 | only an existing, non-empty repository field is rewritten, into a full URL, and rewriting is idempotent |
| Variants.VariantContext.constructor | action/src/variant.ts:26-38 | the context keeps its name, the variant with the completed repository, and the check type; the variant must have `checkver`, which the source reads unguarded |
| Variants.VariantContext.GetVersionFromFile | action/src/variant.ts:182-216 | the staged rebinding of `version` computes `VersionFromFile` |
| Variants.VariantContext.Check | action/src/variant.ts:52-103 | without a repository nothing is run and nothing returned; otherwise the clone or update runs exactly its command plan, the cache takes its effect, and the result is `CheckOutcome` of the plan's success |
| Variants.CheckOutcomeMeaning | action/src/variant.ts:52-103 | a result is returned exactly when the variant has a repository, the clone or update succeeded and the version resolved by type; it carries that version and SHA, the variant's name, context and variant, `needsUpdate` is whether the version or the SHA differs, commit information comes only with an update and is collected whenever the SHA changed and git answers |
| CheckApp.WithoutMetaJson | action/src/context/checkAppContext.ts:138-141 | the list keeps exactly its entries other than `meta.json` |
| CheckApp.TitleItems | action/src/context/checkAppContext.ts:88 | one title item per result, in result order |
| CheckApp.RewriteFiles | action/src/context/checkAppContext.ts:143-170 | the loop over one variant's files computes `FileEdits` |
| CheckApp.CollectFiles | action/src/context/checkAppContext.ts:187-188 | the loop builds the `files` record `FilesRecord` |
| CheckApp.CheckAppContext.constructor | action/src/context/checkAppContext.ts:29-33 | the context keeps its name, the meta, and an untouched copy of the meta as the original |
| CheckApp.CheckAppContext.CheckVersions | action/src/context/checkAppContext.ts:47-72 | the results, the commands issued and the cache are those of `SweepOf`, the variant-by-variant sweep; the run fails (`None`) exactly when some enabled variant has no `checkver`; the visited variants have their repository completed; each result comes from its own enabled variant, in variant order |
| CheckApp.CheckAppContext.CheckTurn | action/src/context/checkAppContext.ts:52-69 | one variant's turn is one step of the sweep: a disabled variant changes nothing, an enabled one is rewritten in place and its check's commands, cache effect and result are the step's |
| CheckApp.SweepThrown | action/src/context/checkAppContext.ts:52-69 | the sweep throws exactly when some enabled variant has no `checkver`, whatever the cache |
| CheckApp.SweepThrownStays | action/src/context/checkAppContext.ts:52-69 | once the sweep has thrown, the later variants change nothing |
| CheckApp.SweepReportsAll | action/src/context/checkAppContext.ts:52-69 | when every command succeeds and every enabled variant resolves, the sweep does not throw and reports one result per enabled variant |
| CheckApp.StepWithRepo | action/src/variant.ts:52-103 | an enabled variant with a repository adds exactly its check's commands, cache effect and result, and the result names that variant |
| Git.RepoPlanSucceeds | action/src/git.ts:29-53 | when every command succeeds, so does `cloneOrUpdateRepo`, whatever the cache holds |
| CheckApp.CheckAppContext.ProcessFiles | action/src/context/checkAppContext.ts:112-191 | the processed list is `ProcessedFiles` on the original meta, with the results recorded by the corrected merge (see Findings), and the `files` record is built from it |
| CheckApp.CheckAppContext.BuildPrData | action/src/context/checkAppContext.ts:77-109 | the PR carries the `files` record, the title `<prefix>(<context>): …` also used as commit message, the head branch, the labels (none in development mode, else the name and `automerge`), the base and the body |
| CheckApp.UpdatedMetaKeys | action/src/context/checkAppContext.ts:113-129 | recording results never adds, drops or reorders variants, and leaves the other meta fields alone |
| CheckApp.UpdatedMetaVariant | action/src/context/checkAppContext.ts:113-129 | with the corrected merge (see Findings), a reported variant holds the version and SHA of the last result naming it, its other fields unchanged; every other variant is unchanged |
| CheckApp.MergeResultGet | action/src/context/checkAppContext.ts:120-129 | one result changes only the variant it names, and only when that variant exists (a missing one throws inside the caught block) |
| CheckApp.ProcessedFilesEndWithMeta | action/src/context/checkAppContext.ts:178-184 | the list ends with `<context>/meta.json`, holding the rewritten meta against the original one, marked changed |
| CheckApp.FileEditsShape | action/src/context/checkAppContext.ts:143-170 | a file is emitted exactly when it is readable, non-empty and changed by the template, with its path under the context |
| CheckApp.ProcessListDefaults | action/src/context/checkAppContext.ts:131-141 | without `processFiles` the list is `Dockerfile` for `latest` and `Dockerfile.<name>` otherwise, and `meta.json` is never processed as a template |
| CheckApp.FilesRecordLastWins | action/src/context/checkAppContext.ts:186-188 | the record holds each path once, mapped to the content of the last processed file with that path |
| CheckApp.FilesRecordHasMeta | action/src/context/checkAppContext.ts:178-188 | the record always maps `<context>/meta.json` to the rewritten meta |
| CheckApp.PrHeadShape | action/src/context/checkAppContext.ts:98 | the head branch is the prefix, `/`, and the context with its first `/` only replaced by `-` |
| CheckApp.MergeAsWrittenKeepsStaleSha | action/src/context/checkAppContext.ts:123-125 | as written, a variant stored with a `sha` but no `version` keeps its stale `sha`, since the spread puts the old one back; the corrected merge stores the new one |
| CheckApp.MergeVariantRecords | action/src/context/checkAppContext.ts:120-129 | with the corrected merge, every variant a result names holds that result's version and SHA, whatever it held before |
| CheckApps.WatchedFiles | action/src/context/checkAppsManager.ts:92 | the filter keeps exactly the changed files ending in `/meta.json`, `/Dockerfile` or `/Dockerfile.<suffix>` |
| CheckApps.WatchedFileExamples | action/src/context/checkAppsManager.ts:92 | `<dir>/meta.json`, `<dir>/Dockerfile` and `<dir>/Dockerfile.<suffix>` are watched |
| CheckApps.Dirnames | action/src/context/checkAppsManager.ts:104 | one directory name per file, in order |
| CheckApps.TrimAll | action/src/context/checkAppsManager.ts:68 | each part of the `context` input is trimmed, in order |
| CheckApps.MetaFiles | action/src/context/checkAppsManager.ts:33-43 | the glob keeps exactly the `meta.json` files under `apps/`, `base/`, `sync/`, and `test/` unless the event is `schedule` |
| CheckApps.Among | action/src/context/checkAppsManager.ts:48 | the apps kept are exactly those in the selected contexts |
| CheckApps.PushExit | action/src/context/checkAppsManager.ts:77-102 | on push the run exits exactly when no changed file is watched, the changed files coming from the commits, or from the comparison when the commits list none |
| CheckApps.WatchedDirsMembers | action/src/context/checkAppsManager.ts:92-104 | the distinct directories of the watched files are exactly the directories holding a watched file |
| CheckApps.PushSelection | action/src/context/checkAppsManager.ts:92-104 | otherwise the selection holds each such directory once |
| CheckApps.DispatchSelectsAll | action/src/context/checkAppsManager.ts:67-72 | a manual run with an empty `context` input, and a scheduled run, select every app |
| CheckApps.DispatchSelection | action/src/context/checkAppsManager.ts:67-69 | a non-empty `context` input is split on commas and each part trimmed |
| CheckApps.OtherEventScansAll | action/src/context/checkAppsManager.ts:107-113 | any other event is an error, which is caught and logged, so every scanned app is selected |
| CheckApps.ScanAppsShape | action/src/context/checkAppsManager.ts:31-58 | every app comes from a scanned `meta.json` and, when contexts are selected, is one of them; a scheduled run never scans `test/` |
| CheckApps.LoadedContextIsPath | action/src/context/checkAppsManager.ts:143-145 | a path not ending in `meta.json` loads under its own name as context |
| CheckApps.LoadAppContext | action/src/context/checkAppsManager.ts:143-171 | an app is loaded exactly when its meta exists, reads, validates and is not skipped; it then has the directory of its meta file as context and that meta |
| CheckApps.CheckAppsManager.constructor | action/src/context/checkAppsManager.ts:26 | the manager starts with no apps |
| CheckApps.CheckAppsManager.AppList | action/src/context/checkAppsManager.ts:178 | the apps in map order |
| CheckApps.CheckAppsManager.LoadApps | action/src/context/checkAppsManager.ts:121-136 | after clearing, the map holds each loadable path once, each mapped to a fresh app loaded from it, so no app object appears twice |
| CheckApps.CheckAppsManager.Assign | action/src/context/checkAppsManager.ts:129 | `apps.set` puts the app under its path, replacing an entry with that path in place or appending, and keeps the app objects distinct |
| CheckApps.PutFresh | action/src/context/checkAppsManager.ts:129 | setting a new app object keeps the map's app objects distinct |
| CheckApps.NeedingUpdate | action/src/context/checkAppsManager.ts:196 | the results kept are exactly those needing an update |
| CheckApps.Contexts | action/src/context/checkAppsManager.ts:178-186 | one context per app, in order |
| CheckApps.ChunkPosition | action/src/context/checkAppsManager.ts:184-187 | the logged `(index - 1) * concurrency + i + 1` of an app is its 1-based position in the list |
| CheckApps.OutdatedTotals | action/src/context/checkAppsManager.ts:194-201 | outdated variants never outnumber checked ones, nor outdated apps checked apps |
| CheckApps.OutdatedEmpty | action/src/context/checkAppsManager.ts:196-201 | there is an outdated app exactly when some checked variant needs an update |
| CheckApps.CheckOne | action/src/context/checkAppsManager.ts:190-214 | one app is one `RunStep` of the run: its check's commands and cache are kept, a throwing check records nothing, otherwise its results are stored under its context and its outdated variants too when there are any; the apps not yet checked keep their variants |
| CheckApps.CheckAppsManager.CheckAllVersions | action/src/context/checkAppsManager.ts:177-222 | `results`, `outdated`, the commands and the cache are those of `RunOf`, the apps checked one after the other from their variants before the run; each checked context appears once in `results`; `outdated` holds only checked contexts with their variants needing an update, and with distinct contexts it is exactly the outdated part of `results` |
| CheckApps.RunKeys | action/src/context/checkAppsManager.ts:188-217 | a context has results exactly when some app of that context was checked without throwing |
| CheckApps.RunLookup | action/src/context/checkAppsManager.ts:188-217 | with distinct contexts, the results of a context are its own app's check from the cache the earlier apps left, and none when that check threw |
| CheckApps.CheckOfThrows | action/src/context/checkAppsManager.ts:195-213 | an app's check throws, and so is caught, exactly when one of its enabled variants has no `checkver` |
| CheckApps.CheckOfStep | action/src/context/checkAppsManager.ts:195-213 | one app's step of the run, for the check of `checkVersions`, stores the sweep's results and outdated variants, or nothing when it threw, and keeps its commands and cache |
| CheckApps.CheckAppsManager.BuildPrDatas | action/src/context/checkAppsManager.ts:227-251 | there is one pull request per outdated context found among the apps, each built by that app from its outdated variants, with the base branch and the body passed straight through |
| CheckApps.CreatePr | action/src/context/checkAppsManager.ts:256-293 | without a token nothing is created; otherwise each pull request is tried in turn and the created ones are kept |
| CheckApps.CreatedPrsLookup | action/src/context/checkAppsManager.ts:276-289 | with distinct contexts, a context has an entry exactly when its creation returned one, and that entry is the result |
| CheckApps.CheckChunks | action/src/context/checkAppsManager.ts:185-217 | after all chunks, the maps, the commands and the cache are those of `RunOf` over the apps in list order, from their variants before the run; every result and outdated entry belongs to a checked context |
| CheckApps.CheckChunk | action/src/context/checkAppsManager.ts:188-216 | the apps of one chunk are checked in order: the run over the apps done so far is extended by this chunk's apps |
| MetaApp.UserLabels | action/src/context/metaAppContext.ts:165 | the user labels of `docker.labels`, in their order, none when absent |
| MetaApp.LabelLines | action/src/context/metaAppContext.ts:167 | one `org.opencontainers.image.<key>=<value>` line per label, in label order |
| MetaApp.MetaAppContext.constructor | action/src/context/metaAppContext.ts:20-23 | the context keeps its directory, its meta and the meta's name |
| MetaApp.MetaAppContext.BuildMatrixData | action/src/context/metaAppContext.ts:85-205 | the loop builds one entry per variant that is not skipped, in variant order; the result is `undefined` exactly when there is none |
| MetaApp.MetaAppContext.GetChangedVariants | action/src/context/metaAppContext.ts:211-220 | nothing for a missing or empty list; otherwise the listed variants that exist |
| MetaApp.ChangedVariantsLookup | action/src/context/metaAppContext.ts:215-219 | a name is in the result exactly when it is listed and exists, with its own variant |
| MetaApp.EntrySkipRules | action/src/context/metaAppContext.ts:97-114 | a variant is skipped exactly when a `version`/`tag`/`sha` check lacks a version or SHA, a manual check lacks a version (or, outside `act`, a SHA), or its Dockerfile is missing |
| MetaApp.DockerfileChoice | action/src/context/metaAppContext.ts:108 | the Dockerfile is `docker.file`, else `Dockerfile` for `latest`, else `Dockerfile.<variant>` |
| MetaApp.EntryBuild | action/src/context/metaAppContext.ts:149-196 | the entry names the app and variant and the Dockerfile under the context; the image is pushed exactly when the app is not under `test/`, not under `act` and `docker.push` is not false; the README only when the image is pushed to Docker Hub and exists; Docker Hub and GHCR pushes follow the image prefixes |
| MetaApp.EntryDistinct | action/src/context/metaAppContext.ts:117-145 | images and tags hold no duplicates, and the tags are exactly the lines of the resolved tag templates |
| MetaApp.VersionPartsOnlyWithDot | action/src/context/metaAppContext.ts:135 | `major`, `minor` and `patch` come from the loose parse only for a version containing a `.` |
| MetaApp.ResolveCleanStable | action/src/context/metaAppContext.ts:48-79 | clean text without backslashes is left alone by entries that carry at most a new value |
| MetaApp.DefaultTagsContent | action/src/context/metaAppContext.ts:131-132 | the default tag templates joined are clean text followed by the `{{version}}` placeholder |
| MetaApp.ResolveVersionOnly | action/src/context/metaAppContext.ts:136-143 | resolving `a{{version}}` puts the version in the placeholder's place, and the later keys change nothing |
| MetaApp.DefaultTagsResolved | action/src/context/metaAppContext.ts:131-144 | with the default templates and a clean name and version, the tags are `type=raw,value=<variant>` and `type=raw,value=<version>`, once when they coincide |
| MetaApp.LabelsOverride | action/src/context/metaAppContext.ts:156-165 | a user label overrides the default of the same key, and the seven default keys always come first, in their order |
| MetaApp.DefaultLabelLines | action/src/context/metaAppContext.ts:156-167 | without user labels the label lines are the seven defaults in order, with their fallbacks |
| MetaApp.LabelsWithoutUserLabels | action/src/context/metaAppContext.ts:156-165 | without user labels the labels are the defaults |
| MetaApps.ScanChangedContext | action/src/context/metaAppsManager.ts:26-57 | only `workflow_dispatch` and `pull_request` events yield a context; a manual run yields one exactly when the `context` input is non-empty, and then that input |
| MetaApps.DispatchVariants | action/src/context/metaAppsManager.ts:28-35 | a manual run passes the context as given and the comma-split, trimmed variants, none for an empty input |
| MetaApps.PullRequestContext | action/src/context/metaAppsManager.ts:37-46 | a pull-request title yields a context exactly when `^update\((.*?)\):` captures something non-blank |
| MetaApps.UpToCloseShape | action/src/context/metaAppsManager.ts:39 | the lazy capture is the text up to the first `):`, on one line |
| MetaApps.UpToCloseOf | action/src/context/metaAppsManager.ts:39 | a context free of `):` and line terminators is captured whole |
| MetaApps.ItemVariantMatch | action/src/context/metaAppsManager.ts:40 | a title item `update <name> version to <version>` starts with a match of `update (\w+) version to` capturing its name |
| MetaApps.ItemsCaptures | action/src/context/metaAppsManager.ts:40-48 | the joined title items give back the variant names, in order |
| MetaApps.Names | action/src/context/metaAppsManager.ts:48 | the variant names of the results, in order |
| MetaApps.NamesKept | action/src/context/metaAppsManager.ts:48 | word-character names survive the trim and the empty-string filter |
| MetaApps.TitleNames | action/src/context/metaAppsManager.ts:40-48 | the variants parsed from a title built by the version check are the results' names |
| MetaApps.TitleContextOf | action/src/context/metaAppsManager.ts:39-42 | the context parsed from such a title is the one it was built for |
| MetaApps.TitleRoundTrip | action/src/context/metaAppsManager.ts:37-50 | the title of a pull request built by the version check for a context and its results is parsed back into that context and the variant names, in order |
| MetaApps.PullRequestScan | action/src/context/metaAppsManager.ts:37-50 | for a title with a non-blank capture, the result is the trimmed capture and the trimmed, non-empty variant captures |
| MetaApps.DevelopmentTitleIgnored | action/src/context/metaAppsManager.ts:39-46 | a development title `test(...)` yields nothing |
| MetaApps.NoCaptureNoContext | action/src/context/metaAppsManager.ts:42-46 | a title without a capture yields nothing |
| MetaApps.LoadAppContext | action/src/context/metaAppsManager.ts:65-94 | an app is loaded exactly when its meta reads, validates and is not skipped, under the directory of its meta file; the unawaited `pathExists` guard never fires |
| MetaApps.PrTitleShape | action/src/context/checkAppContext.ts:88-95 | outside development the title is `update(<context>): ` followed by the items joined with `, ` |
| MetaApps.TitleContext | action/src/context/metaAppsManager.ts:39-42 | the context capture of `update(<ctx>): …` is `ctx` when it is parsable |
| MetaApps.TitleVariants | action/src/context/metaAppsManager.ts:40-48 | the variant captures of a title are those of its items when the context has no space |
| Config.GetCurrentBranch | action/src/config.ts:79-117 | the reassignments down the event chain compute `CurrentBranch`, which is never empty and never a `refs/` name |
| Config.CurrentBranchValid | action/src/config.ts:108-111 | the final guard leaves a non-empty branch that does not start with `refs/` |
| Config.ReplaceHeadsPrefix | action/src/config.ts:90 | `refs/heads/<b>` loses exactly its prefix |
| Config.PushBranch | action/src/config.ts:87-101 | push and manual runs on `refs/heads/<b>` give `b` when it is a usable name |
| Config.PullRequestBranch | action/src/config.ts:92-95 | pull requests take the base branch, or `master` when it is absent or empty |
| Config.OtherEventBranch | action/src/config.ts:100-105 | other events on a ref outside `refs/heads/` give `master` |
| Config.MissingRefBranch | action/src/config.ts:112-115 | an unset ref makes the read throw, and `master` is used |
| Config.CacheDir | action/src/config.ts:30 | the cache directory is never empty |
| Config.ToNumber | action/src/config.ts:52 | the unary `+` yields a non-negative number on the forms modelled, or `NaN` |
| Config.ConfigStore.constructor | action/src/config.ts:13-14 | no configuration is cached at first |
| Config.ConfigStore.GetCheckVersionConfig | action/src/config.ts:36-58 | the first call builds and caches the object; every later call returns it whatever the inputs, and the other cache is untouched |
| Config.ConfigStore.GetResolveMetadataConfig | action/src/config.ts:61-74 | cached the same way |
| Config.ContextAll | action/src/config.ts:51 | the input `all` selects every app; any other input, the empty one included, is kept |
| Config.CreatePrMapping | action/src/config.ts:43-53 | only `true`, `false` and `development` are mapped; anything else creates a PR exactly on push and schedule |
| Config.CreatePrEnvIgnored | action/src/config.ts:38 | `CREATE_PR` has no effect, since `getInput` never returns a nullish value |
| Config.ConcurrencyDefault | action/src/config.ts:40 | without `CONCURRENCY`, one app at a time under `act` and three otherwise |
| Config.ConcurrencyFromEnv | action/src/config.ts:40-52 | a decimal `CONCURRENCY` is taken as it is, 0 included |
| Config.ConcurrencyBlank | action/src/config.ts:40-52 | an empty or blank `CONCURRENCY` counts as 0 |
| Config.TokenChoice | action/src/config.ts:50 | the token input wins over `GITHUB_TOKEN` unless it is empty |
| Config.DebugOnlyOnDispatch | action/src/config.ts:54 | `debug` is read only for manual runs, in both configurations |
| Logging.Components | action/src/logger.ts:79-82 | the hours, minutes and seconds dayjs reports are below 24, 60 and 60 |
| Logging.ComponentsBelowADay | action/src/logger.ts:79-82 | below a day they add up to the whole seconds of the duration |
| Logging.UnderAMinute | action/src/logger.ts:78-98 | a duration under a minute is written as its whole seconds alone, `Ns` or `00:SS` |
| Logging.Pad2Value | action/src/logger.ts:86 | two-digit padding of a number below 100 keeps its value |
| Logging.DigitalRoundTrip | action/src/logger.ts:84-90 | the digital format is read back exactly |
| Logging.TextPiecesNonEmpty | action/src/logger.ts:93-97 | the text pieces left are the non-zero hours and minutes, then the seconds |
| Logging.TextRoundTrip | action/src/logger.ts:93-97 | the text format is read back exactly, a zero hour or minute count being what is left out |
| Logging.FormatDurationRoundTrip | action/src/logger.ts:78-98 | both styles can be read back into the duration's components |
| Logging.MergeKeepsGiven | action/src/logger.ts:59-63 | given options are kept and only absent ones take the defaults |
| Logging.MergeGiven | action/src/logger.ts:59-63 | merging a full set of options changes nothing, whatever the debug flag |
| Logging.MergeIdempotent | action/src/logger.ts:59-63 | merging merged options again changes nothing |
| Logging.FormatNamespace | action/src/logger.ts:112-117 | the prefix is empty exactly when there are no namespaces |
| Logging.FormatNamespaceRoundTrip | action/src/logger.ts:112-117 | without colour, the bracketed text splits back into the namespaces |
| Logging.RealLevel | action/src/logger.ts:168 | any level other than the four known ones is logged as info |
| Logging.RouteLevels | action/src/logger.ts:164-181 | a message is dropped exactly when it is a debug message outside debug mode; otherwise it goes out unchanged, through `core.warning` or `core.error` for those levels and `core.info` for every other |
| Logging.RouteNeverCoreDebug | action/src/logger.ts:170-175 | nothing is ever written with `core.debug` |
| Logging.Logger.constructor | action/src/logger.ts:104-107 | a new logger has the merged options and a copy of the namespaces |
| Logging.Logger.Prefix | action/src/logger.ts:112-117 | its prefix is empty exactly when it has no namespaces |
| Logging.Logger.Child | action/src/logger.ts:205-207 | a child has the same options and the namespaces extended, and is a new logger |
| Logging.Logger.SafeLog | action/src/logger.ts:164-181 | the emission is the routing of the level and message |
| Logging.Logger.Debug | action/src/logger.ts:183-185 | a debug message goes out through `core.info` only in debug mode |
| Logging.Logger.Info | action/src/logger.ts:187-189 | an info message always goes out through `core.info` |
| Logging.Logger.Warn | action/src/logger.ts:191-193 | a warning always goes out through `core.warning` |
| Logging.Logger.Error | action/src/logger.ts:195-197 | an error always goes out through `core.error` |
| Logging.CreateArgsCases | action/src/logger.ts:268-291 | a leading string makes every argument a namespace; leading options keep the rest as namespaces; no argument gives the defaults |
| Logging.CreateLogger | action/src/logger.ts:268-291 | the new logger has the options and namespaces the arguments select |
| Logging.LoggerRegistry.constructor | action/src/logger.ts:293-296 | the global options are the defaults and `_logger` is the exported `logger`, without namespaces |
| Logging.LoggerRegistry.UpdateLoggerConfig | action/src/logger.ts:299-302 | the new global options override the old ones field by field; `_logger` is replaced, while the exported `logger` keeps its old options |
| Logging.LoggerRegistry.SetLogFormat | action/src/logger.ts:305-307 | only the format of the global options changes |
| VersionHandler.CreateResult | action/src/hooks/handlers/AppVersionHandler.ts:168-178 | `hasUpdate` is the update test; success carries the payload as `pr` and no error, failure carries it as `error` and no `pr` |
| VersionHandler.PlaceholderData | action/src/hooks/handlers/AppVersionHandler.ts:416-424 | the placeholder keys are `version`, `sha`, `fullSha`, in that order |
| VersionHandler.PlaceholderValues | action/src/hooks/handlers/AppVersionHandler.ts:416-424 | each key has a new and an old value; both short SHAs are prefixes of their full SHAs of at most seven characters |
| VersionHandler.ResolveStrings | action/src/hooks/handlers/AppVersionHandler.ts:142-147 | every string field of the meta is resolved on its own, in place |
| VersionHandler.FinalTags | action/src/hooks/handlers/AppVersionHandler.ts:149-157 | present non-empty tags or else the three default tags, with repeats dropped |
| VersionHandler.UpdatedTags | action/src/hooks/handlers/AppVersionHandler.ts:142-161 | the updated meta's tags are distinct and are exactly the resolved tags, or the defaults when there were none |
| VersionHandler.UpdatedVersionKept | action/src/hooks/handlers/AppVersionHandler.ts:142-161 | when the new version and SHA hold no placeholder and none of the old values, the updated meta has exactly them |
| VersionHandler.ResolveThree | action/src/hooks/handlers/AppVersionHandler.ts:506-529 | resolution applies the version, short-SHA and full-SHA entries one after another |
| VersionHandler.ResolveUntouched | action/src/hooks/handlers/AppVersionHandler.ts:506-529 | a string with no placeholder and none of the old values is left unchanged |
| VersionHandler.OldVersionInsideNewVersion | action/src/hooks/handlers/AppVersionHandler.ts:142-147 | going from `1.2` to `1.2.1` stores `1.2.1.1`, because the old version is replaced inside the new one that was already overlaid |
| VersionHandler.StripV | action/src/hooks/handlers/AppVersionHandler.ts:251-290 | `.replace(/^v/, '')` removes at most one leading `v` |
| VersionHandler.ExtractVersionSource | action/src/hooks/handlers/AppVersionHandler.ts:258-270 | the version is the regex group when the group matched, otherwise the whole content, trimmed and without one leading `v`; a trimmed text without `v` comes out as it is |
| VersionHandler.MissingVersionFile | action/src/hooks/handlers/AppVersionHandler.ts:231-234 | a missing version file gives the current version and SHA, so no update is found |
| VersionHandler.ShaVersion | action/src/hooks/handlers/AppVersionHandler.ts:275-282 | a SHA check's version is the first seven characters of the trimmed head SHA |
| VersionHandler.UnsupportedKind | action/src/hooks/handlers/AppVersionHandler.ts:211-214 | any check type besides `version`, `sha` and `tag` fails with `Unsupported check type: <type>` |
| VersionHandler.CommitInfoCases | action/src/hooks/handlers/AppVersionHandler.ts:338-407 | an unchanged SHA or a failed diff query gives the empty record; otherwise the message is the trimmed subject and at most ten recent commits are kept |
| VersionHandler.JoinAll | action/src/hooks/handlers/AppVersionHandler.ts:451-469 | every extra process file is joined under the context, in order |
| VersionHandler.ProcessAllDistinct | action/src/hooks/handlers/AppVersionHandler.ts:429-500 | `processedFiles` keeps one entry per path |
| VersionHandler.ProcessAllUnchanged | action/src/hooks/handlers/AppVersionHandler.ts:474-500 | without a version update no processed file is marked as changed |
| VersionHandler.PrFilesGet | action/src/hooks/handlers/AppVersionHandler.ts:559-584 | looking up a path in the PR files gives the changed content of that path, or what was there before |
| VersionHandler.PrFilesContents | action/src/hooks/handlers/AppVersionHandler.ts:559-584 | the PR always carries the current meta, and carries any other path exactly when it was processed and changed |
| VersionHandler.AppVersionHandler.constructor | action/src/hooks/handlers/AppVersionHandler.ts:66-69 | no commit info and no processed files |
| VersionHandler.AppVersionHandler.InitializeHandler | action/src/hooks/handlers/AppVersionHandler.ts:121-132 | both metas become the given meta; the version info is empty, the commit info is unset and the processed files are cleared |
| VersionHandler.AppVersionHandler.GetVersionInfo | action/src/hooks/handlers/AppVersionHandler.ts:204-295 | the version info comes from the file, the head SHA or the latest tag, as the check type says; on failure it is left as it was |
| VersionHandler.AppVersionHandler.UpdateCurrentMeta | action/src/hooks/handlers/AppVersionHandler.ts:142-161 | the current meta becomes the resolved meta with the new version, SHA and final tags; nothing else changes |
| VersionHandler.AppVersionHandler.GetFilesToProcess | action/src/hooks/handlers/AppVersionHandler.ts:451-469 | the meta, then the Dockerfile, then the extra process files, all under the context |
| VersionHandler.AppVersionHandler.ProcessFile | action/src/hooks/handlers/AppVersionHandler.ts:474-500 | a file that can be read is recorded with its resolved content and whether it changed; a missing file is skipped |
| VersionHandler.AppVersionHandler.ProcessAllFiles | action/src/hooks/handlers/AppVersionHandler.ts:429-443 | every file to process is processed in order |
| VersionHandler.AppVersionHandler.BuildPRData | action/src/hooks/handlers/AppVersionHandler.ts:544-617 | title, commit, head, base, labels and files as the source builds them, with the files processed first; the commit info is collected when it was not yet set and left alone otherwise, and the version info is unchanged |
| VersionHandler.AppVersionHandler.CollectCommitInfo | action/src/hooks/handlers/AppVersionHandler.ts:338-407 | the commit info is always set, to the empty record when nothing could be read |
| VersionHandler.AppVersionHandler.Check | action/src/hooks/handlers/AppVersionHandler.ts:74-109 | a failure to read the version gives an error result, no update a success without PR data, and an update a success whose PR carries the rewritten meta and the changed files, the `chore` title and commit, the head branch, the base, the `automerge` label, owner and repository, with the commit info collected for the new and old SHA |
| CheckVersion.DirnameOfMetaFile | action/src/actions/check-version.ts:152 | the context of `<ctx>/meta.json` is `ctx` |
| CheckVersion.ReasonNone | action/src/actions/check-version.ts:160-180 | a meta is accepted exactly when it names a Dockerfile that exists, is not skipped, is valid, has a non-blank name and a type among `app`, `base`, `sync` |
| CheckVersion.SkipBeforeValidation | action/src/actions/check-version.ts:163-174 | the checks run in order, so a skipped meta is reported as skipped and never as invalid |
| CheckVersion.MissingType | action/src/actions/check-version.ts:178-180 | a meta without a type is rejected with `Invalid meta type: undefined` |
| CheckVersion.DetailDefaults | action/src/actions/check-version.ts:151-199 | a meta that cannot be read or is rejected is stored without defaults; an accepted one gets the directory as context when it has none and `push` true when unset, and keeps its Dockerfile |
| CheckVersion.DetailsLookup | action/src/actions/check-version.ts:149-200 | the detail stored for a context is that of the last meta file in that directory |
| CheckVersion.DetailsDistinct | action/src/actions/check-version.ts:149-200 | each context is stored once |
| CheckVersion.DetailsWellFormed | action/src/actions/check-version.ts:182-198 | every accepted detail carries its meta |
| CheckVersion.CollectMetaDetails | action/src/actions/check-version.ts:149-200 | the loop fills `allMetaSet` with one detail per context, the last file in a directory winning |
| CheckVersion.ValidMetas | action/src/actions/check-version.ts:202-204 | the valid metas are no more than the details |
| CheckVersion.InValidMetas | action/src/actions/check-version.ts:202-204 | the meta of every accepted detail is among the valid metas |
| CheckVersion.ResolveContextSound | action/src/actions/check-version.ts:234-249 | a context resolves exactly when it is known and was accepted, and then to one of the valid metas |
| CheckVersion.ModifiedMetas | action/src/actions/check-version.ts:282-285 | at most one meta per modified file |
| CheckVersion.ModifiedMetasValid | action/src/actions/check-version.ts:282-285 | every meta taken from the modified files is a valid meta |
| CheckVersion.NonParenRun | action/src/actions/check-version.ts:296 | the `[^)]+` run is the longest prefix without `)` |
| CheckVersion.MatchContext | action/src/actions/check-version.ts:296-298 | a context found in the commit message is non-empty and holds no `)` |
| CheckVersion.MatchFound | action/src/actions/check-version.ts:296-298 | a match found from any position is non-empty and holds no `)` |
| CheckVersion.SelectedAreValid | action/src/actions/check-version.ts:133-315 | whatever the event, every meta `getApps` returns is a valid meta |
| CheckVersion.DispatchSelection | action/src/actions/check-version.ts:252-268 | a dispatch with an empty context or `all` selects every valid meta; any other context selects its meta, or nothing when it does not resolve |
| CheckVersion.PushSelection | action/src/actions/check-version.ts:271-314 | a push without `force check` selects every valid meta; with it, the modified meta files win, then the context named in the message, then every valid meta |
| CheckVersion.ContextAtStart | action/src/actions/check-version.ts:296 | a word, a parenthesised group without `)` and a colon match the pattern at its start |
| CheckVersion.MatchContextOfPrTitle | action/src/actions/check-version.ts:296-298 | the title of a legacy pull request names its own context to the fallback |
| CheckVersion.TitleContextOfPrTitle | action/src/actions/resolve-meta.ts:18-26 | the title of a legacy pull request carries its context back to `resolveMeta` |
| CheckVersion.TitleContextOfMockTitle | action/src/actions/resolve-meta.ts:18-26 | a mock pull request's title is rejected by `resolveMeta` |
| CheckVersion.Priority | action/src/actions/check-version.ts:622-630 | error ranks 0, a successful update 1, skipped 2, anything else 3 |
| CheckVersion.StatusOrderTotal | action/src/actions/check-version.ts:620-641 | the rank-then-context comparison is a total preorder when `localeCompare` is |
| CheckVersion.SortAppsByStatus | action/src/actions/check-version.ts:619-641 | the results are sorted in place by rank and then by context, as a permutation of what they were |
| CheckVersion.SortedByStatus | action/src/actions/check-version.ts:617-641 | in sorted results errors come first, then updates, then skipped, then up to date, with each rank ordered by context |
| CheckVersion.Truncate | action/src/actions/check-version.ts:649 | `substring(0, n)` followed by `...` exactly when the text is longer than `n` |
| CheckVersion.StatusInfoMatchesPriority | action/src/actions/check-version.ts:647-662 | the status badge names the result's rank, and an error shows `未知错误` when it has no message or the message cut to 50 characters |
| CheckVersion.VersionInfoCases | action/src/actions/check-version.ts:667-683 | only an update shows two versions, an error shows the old version, and `N/A` stands for a missing version |
| CheckVersion.PrStatusPrecedence | action/src/actions/check-version.ts:724-749 | only successful updates have a PR cell; then a PR URL wins over a PR error, an error over a disabled input, and a disabled input over pending |
| CheckVersion.WithPriority | action/src/actions/check-version.ts:437-447 | a bucket holds exactly the results of its rank |
| CheckVersion.Buckets | action/src/actions/check-version.ts:437-447 | errors, updates, skipped and up-to-date results go to their own bucket, in order |
| CheckVersion.BucketsPartition | action/src/actions/check-version.ts:437-447 | every result lands in exactly one bucket |
| CheckVersion.UpdatedStat | action/src/actions/check-version.ts:56 | the update counter takes every result with `hasUpdate`, whatever its status |
| CheckVersion.UpdateAndErrorOverlap | action/src/actions/check-version.ts:437-447 | a failed result with `hasUpdate` counts as update and as error in the counters, but only as error in the summary |
| CheckVersion.HandlerFailureAfterUpdate | action/src/hooks/handlers/AppVersionHandler.ts:168-178 | the legacy handler produces such results when it fails after finding a new version |
| CheckVersion.OfKind | action/src/actions/check-version.ts:605-611 | the group of a type holds exactly the results of that type |
| CheckVersion.GroupedGet | action/src/actions/check-version.ts:602-614 | each type present maps to its results in their original order, and an absent type to nothing |
| CheckVersion.GroupAppsByType | action/src/actions/check-version.ts:602-614 | `groupAppsByType` builds that grouping |
| ResolveMeta.DockerObject.constructor | action/src/hooks/useResolveMeta.ts:8 | the `dockerMeta` object holds the given images, platforms, tags, labels, context, Dockerfile and push flag |
| ResolveMeta.LabelLines | action/src/hooks/useResolveMeta.ts:43-46 | one label line per label entry |
| ResolveMeta.KeyRun | action/src/hooks/useResolveMeta.ts:44 | the key of a label line is the longest prefix without `=` |
| ResolveMeta.LabelLineRoundTrip | action/src/hooks/useResolveMeta.ts:44 | a label line `org.opencontainers.image.<key>=<value>` gives back its key and value when the key holds no `=` |
| ResolveMeta.PlatformsChoice | action/src/hooks/useResolveMeta.ts:16-28 | without `push` only `linux/amd64` is built; otherwise the listed platforms, or `linux/amd64,linux/arm64` when none are listed |
| ResolveMeta.ImagesDefault | action/src/hooks/useResolveMeta.ts:13-15 | without images the Docker Hub and GHCR names of the app are used, otherwise the listed images one per line |
| ResolveMeta.MergedLabelsGet | action/src/hooks/useResolveMeta.ts:33-39 | a user label overrides the default of the same key, any other user label is kept, and `url`, `revision`, `upstream`, `version` keep the first places |
| ResolveMeta.UseResolveMeta | action/src/hooks/useResolveMeta.ts:6-54 | the labels of `dockerMeta` become the merged labels and nothing else in it changes; the outputs are the images, platforms, context, joined Dockerfile path, push flag, tags one per line, and one label line per merged label, with the annotations equal to the labels |
| GenerateData.StripLineComment | scripts/generate-data.js:47-56 | a line keeps a prefix of itself |
| GenerateData.StripLineCommentCases | scripts/generate-data.js:47-56 | a line loses its text from the first `//` on exactly when an even number of `"` precede that `//`, and is kept whole otherwise |
| GenerateData.StripLines | scripts/generate-data.js:47-57 | every line is stripped on its own |
| GenerateData.LineCountPreserved | scripts/generate-data.js:47-57 | the first pass keeps the lines: the same number, each stripped on its own |
| GenerateData.StripBlocks | scripts/generate-data.js:59 | removing block comments never lengthens the text |
| GenerateData.StripBlocksAbsent | scripts/generate-data.js:59 | text without `/*` is left unchanged |
| GenerateData.StripBlock | scripts/generate-data.js:59 | a block comment is removed up to its first `*/`, the lazy match |
| GenerateData.DropOnlyCommas | scripts/generate-data.js:60 | the trailing-comma pass drops only commas; every other character is kept in order |
| GenerateData.DropTrailingCommasAt | scripts/generate-data.js:60 | a comma is dropped exactly when only white space separates it from the next `}` or `]` |
| GenerateData.OneCommaPerCloser | scripts/generate-data.js:60 | one comma per closer: `,,]` loses only its second comma |
| GenerateData.FillKeeps | scripts/generate-data.js:73-93 | filling never changes a defined value, nor a key without a default |
| GenerateData.FillSets | scripts/generate-data.js:78-91 | after filling, every key with a defined default is defined |
| GenerateData.FillOfSet | scripts/generate-data.js:78 | filling an object whose defaulted keys are all defined changes nothing |
| GenerateData.FillIdempotent | scripts/generate-data.js:73-93 | filling twice is filling once |
| GenerateData.PropValueDefinite | scripts/generate-data.js:79-90 | a defined default is never written as `undefined` |
| GenerateData.ReplaceName | scripts/generate-data.js:83-86 | `replace('{name}', name)` replaces the first `{name}` only |
| GenerateData.ContextDefault | scripts/generate-data.js:39-83 | a `context` default is `base/<name>` for base metas and `apps/<name>` otherwise, whatever the schema says |
| GenerateData.FillNext | scripts/generate-data.js:74-76 | the reserved keys `$ref` and `additionalProperties` are skipped, every other property is one step |
| GenerateData.ApplyPropertyDefaults | scripts/generate-data.js:73-93 | the loop over the schema's properties fills the object as the specification function does |
| GenerateData.DockerDefaultImages | scripts/generate-data.js:122-126 | the default images are `aliuq/<name>` and `ghcr.io/aliuq/<name>` |
| GenerateData.FillVariantEnabled | scripts/generate-data.js:99-101 | a variant gets `enabled: true` unless it sets `enabled` itself |
| GenerateData.FillVariantNone | scripts/generate-data.js:98-103 | only a `null` variant throws |
| GenerateData.FilledFields | scripts/generate-data.js:98 | the variants keep their keys, in order |
| GenerateData.FilledItems | scripts/generate-data.js:98 | an array of variants keeps its length |
| GenerateData.FillVariantsLoop | scripts/generate-data.js:97-145 | the variants of an object are each filled, or the whole meta fails when one is `null` |
| GenerateData.FillVariantItemsLoop | scripts/generate-data.js:97-145 | the variants of an array are each filled, or the whole meta fails when one is `null` |
| GenerateData.VariantDefaultsKeeps | scripts/generate-data.js:97-145 | filling the variants touches no other top-level field |
| GenerateData.VariantDefaultsDefined | scripts/generate-data.js:97-145 | defined variants stay defined |
| GenerateData.ApplyDefaultsKeeps | scripts/generate-data.js:68-148 | a top-level field the meta sets, or one the schema gives no default, comes through unchanged, `variants` aside |
| GenerateData.ApplyDefaultsSets | scripts/generate-data.js:68-148 | after `applyDefaults` every property with a schema default is defined |
| GenerateData.ApplyDefaults | scripts/generate-data.js:68-148 | `applyDefaults` computes the specification function |
| GenerateData.ParseIntText | scripts/generate-data.js:191 | `Number.parseInt` gives a number only for non-empty text |
| GenerateData.ParseDigits | scripts/generate-data.js:191 | `Number.parseInt` of a digit string is its value |
| GenerateData.UpdatedAtOfLog | scripts/generate-data.js:190-195 | the line `git log --format=%ct` prints gives back its timestamp |
| GenerateData.UpdatedAtMissing | scripts/generate-data.js:189-195 | a failed or silent `git log` leaves the entry without a time; a time needs a digit in the output |
| GenerateData.ReadmePathCases | scripts/generate-data.js:200 | the readme path is the category's directory and the name of the meta as read, `undefined` when it has none |
| GenerateData.EntriesSound | scripts/generate-data.js:153-211 | no more entries than directories; every entry carries the category and comes from a listed directory with a readable meta |
| GenerateData.EntriesSnoc | scripts/generate-data.js:162-208 | a directory whose meta reads without error gives exactly one entry, in listing order |
| GenerateData.ReadEntry | scripts/generate-data.js:163-207 | one turn of the loop skips non-directories and missing metas, and skips a meta whose reading throws, a `null` meta among them since its `name` is read for the README path |
| GenerateData.ReadMetaFiles | scripts/generate-data.js:153-211 | no entries for a missing directory, otherwise the entries of its listing |
| GenerateData.NewestFirstTotal | scripts/generate-data.js:219-223 | the newest-first comparison is a total preorder |
| GenerateData.Generate | scripts/generate-data.js:213-233 | `total` is the number of apps, the apps are the app entries and base entries permuted, and they are sorted newest first with a missing time as 0 |
| MiseUtils.ReadHistory | mise-tasks/lib/utils.mjs:98-111 | the stored array when the file exists, parses and holds an array, and `[]` otherwise |
| MiseUtils.Trim | mise-tasks/lib/utils.mjs:124-128 | trimming never adds entries |
| MiseUtils.TrimPerTask | mise-tasks/lib/utils.mjs:115-128 | per task, the trimmed history holds exactly the first 20 entries of that task |
| MiseUtils.TrimCount | mise-tasks/lib/utils.mjs:124-128 | no task keeps more than 20 entries, and a task with fewer keeps them all |
| MiseUtils.TrimSublist | mise-tasks/lib/utils.mjs:125 | trimming keeps the order of what it keeps |
| MiseUtils.TrimHead | mise-tasks/lib/utils.mjs:125-128 | the first entry always survives the trimming |
| MiseUtils.EntryKey | mise-tasks/lib/utils.mjs:120 | the new entry is counted under its task |
| MiseUtils.TrimStep | mise-tasks/lib/utils.mjs:126-127 | each entry is counted under its own task only, and kept while its count is at most 20 |
| MiseUtils.CountsNext | mise-tasks/lib/utils.mjs:126 | after each entry the `counts` dictionary holds how many entries of each task have been seen |
| MiseUtils.HistoryStep | mise-tasks/lib/utils.mjs:125-128 | one turn of the `filter` extends the trimmed history by the entry exactly when its count is at most 20 |
| MiseUtils.TrimHistory | mise-tasks/lib/utils.mjs:124-128 | the `filter` with a `counts` dictionary that has only own keys gives the trimmed history (see Findings for inherited names), or throws on an entry without properties |
| MiseUtils.SaveHistory | mise-tasks/lib/utils.mjs:117-131 | the history written back is the new entry followed by the stored history, trimmed per task by the corrected trim (see Findings) |
| MiseUtils.NewEntrySurvives | mise-tasks/lib/utils.mjs:120-128 | the new entry is always the first one written |
| MiseUtils.TrimAsWritten | mise-tasks/lib/utils.mjs:124-128 | the `filter` as written, with `counts` a plain object, never adds entries |
| MiseUtils.InheritedTaskDropped | mise-tasks/lib/utils.mjs:124-128 | as written, a task named `constructor` never gets its new entry saved |
| MiseUtils.GetHistory | mise-tasks/lib/utils.mjs:138-140 | exactly the stored entries whose `task` is the one asked for, in stored order |
| MiseUtils.GetHistoryCopies | mise-tasks/lib/utils.mjs:138-140 | every entry appears as many times as it is stored when its `task` is the one asked for, and not at all otherwise |
| Lists.FilterMultiset | mise-tasks/lib/utils.mjs:139 | `filter` keeps each kept element as many times as it occurs and drops the others |
| MiseUtils.TaskIsCounted | mise-tasks/lib/utils.mjs:127-139 | an entry shown for a task is counted under that task |
| MiseUtils.HistoryBounded | mise-tasks/lib/utils.mjs:115-140 | a saved history shows at most 20 entries of any one task |
| MiseUtils.SafeContext | mise-tasks/lib/utils.mjs:203 | every `/` becomes `_`, every `,` becomes `+`, and nothing else changes |
| MiseUtils.SafeContextPlain | mise-tasks/lib/utils.mjs:203 | a context with no `/` and no `,` is used as it is |
| MiseUtils.LogStamp | mise-tasks/lib/utils.mjs:201 | the time stamp has at most 19 characters and no `:` or `.` |
| MiseUtils.LogStampOfIso | mise-tasks/lib/utils.mjs:201 | an ISO time `YYYY-MM-DDTHH:mm:ss.sssZ` gives `YYYY-MM-DDTHH-mm-ss` |
| MiseUtils.LogPathInDataDir | mise-tasks/lib/utils.mjs:198-205 | the log file sits directly in `.mise-logs` and ends in `.log` when neither the name passed in nor the time holds `/` |
| Manifest.TextLeqTotal | action/src/manifest.ts:11-22 | any two strings are comparable in the default `sort()` order |
| Manifest.TextLeqTransitive | action/src/manifest.ts:11-22 | the default `sort()` order is transitive |
| Manifest.TextLeqAntisymmetric | action/src/manifest.ts:11-22 | strings that sort both ways are equal |
| Manifest.TextOrder | action/src/manifest.ts:11-22 | the default order is a total order, so a sorted arrangement is unique |
| Manifest.SortStrings | action/src/manifest.ts:11-22 | `sort()` rearranges the array in place into the default order |
| Manifest.Dirnames | action/src/manifest.ts:13 | `path.dirname` of each meta file, in order |
| Manifest.ContextsMembers | action/src/manifest.ts:11-15 | a context is listed exactly when some meta file in that directory is not skipped |
| Manifest.MetaPaths | action/src/manifest.ts:9 | the meta file of each directory is `<dir>/meta.json` |
| Manifest.ContextsSnoc | action/src/manifest.ts:11-15 | one more meta file adds its directory exactly when it is not skipped |
| Manifest.ContextsOfDirectories | action/src/manifest.ts:11-15 | listing the meta files of directories in order gives those directories whose meta is not skipped, in order |
| Manifest.GetContextList | action/src/manifest.ts:8-16 | the meta paths are sorted in place, then the directories of the metas that are not skipped are returned in that order |
| Manifest.ContextLines | action/src/manifest.ts:22 | one item line per context |
| Manifest.ContextLineParts | action/src/manifest.ts:21-22 | an item line is ten spaces, `- ` and the context, so it holds no line break and gives its context back |
| Manifest.ContextTextLines | action/src/manifest.ts:22 | splitting the list text at line breaks gives one item per context, each giving back its context |
| Manifest.ReplaceSpanAt | action/src/manifest.ts:20-26 | the match is replaced and the text around it is kept |
| Manifest.ReplacedSpan | action/src/manifest.ts:20-26 | after replacement the markers match again, exactly around the new list |
| Manifest.ReplaceSpanTwice | action/src/manifest.ts:20-26 | replacing between the markers twice is replacing once with the second text |
| Manifest.RewriteReplacesSpan | action/src/manifest.ts:20-26 | the text from the first `# ContextStart` to the last `# ContextEnd` becomes the markers around the new list, and the rest of the file is kept |
| Manifest.SpanAround | action/src/manifest.ts:20 | a start marker before an end marker means the expression matches on a span covering both |
| Manifest.RewriteUnmatched | action/src/manifest.ts:20-26 | a file without a start marker before an end marker is left as it is |
| Manifest.RewriteWithoutMarkers | action/src/manifest.ts:20-26 | a file missing either marker is left as it is |
| Manifest.RewriteTwice | action/src/manifest.ts:19-38 | rewriting a rewritten file with a second list is rewriting it with the second list alone |
| Manifest.RewriteIdempotent | action/src/manifest.ts:19-38 | running the script twice on an unchanged repository leaves the workflows as the first run wrote them |
| Manifest.Writes | action/src/manifest.ts:24-37 | the three workflows are rewritten in order, stopping at the first that cannot be read |
| Manifest.UpdateCiContextOption | action/src/manifest.ts:19-38 | the caller's list is sorted in place and the three workflows are rewritten with it; the run is complete exactly when all three were read |
| Manifest.Regenerate | action/src/manifest.ts:40-43 | the contexts found are sorted once more and written into the workflows |
| DocsApps.PickVariantEntry | docs/src/data/apps.ts:7-19 | no variants give `latest` with no value; otherwise the picked name and value are an entry of the record, and `latest` wins whenever it holds a variant |
| DocsApps.NormalizeRepoMeaning | docs/src/data/apps.ts:57-67 | no repository gives no link; any other gives an http(s) URL ending with the repository text; a URL is kept, so normalising twice is normalising once |
| DocsApps.Normalize | docs/src/data/apps.ts:21-55 | the description and the slogan stand in for each other before the defaults; the title falls back to the name; without a variant the variant fields take their defaults; the type is the category, else `base` exactly for a meta of type `base` |
| DocsApps.DashSplit | docs/src/data/apps.ts:37 | `a-b-x` splits back at its last `-` when `x` has none |
| DocsApps.KindPrefix | docs/src/data/apps.ts:37 | the type prefix of an id is read back when it is `app` or `base` |
| DocsApps.IdKey | docs/src/data/apps.ts:37 | `<type>-<name>-<variant>` gives back its parts when the type is `app` or `base` and the variant has no `-` |
| DocsApps.IdDetermines | docs/src/data/apps.ts:22-37 | two items of known type and dash-free variant names with the same id share type, name and variant |
| DocsApps.Items | docs/src/data/apps.ts:71-74 | one item per listed meta, in order |
| DocsApps.ListedMetas | docs/src/data/apps.ts:70 | the kept metas are named and not skipped |
| DocsApps.TitleOrderPreorder | docs/src/data/apps.ts:75 | the title comparison is a total preorder when `localeCompare` is |
| DocsApps.AppsMeaning | docs/src/data/apps.ts:69-75 | the catalogue holds one item per named, unskipped meta, no more items than metas, in title order |
| DocsApps.AppsMembers | docs/src/data/apps.ts:69-75 | an item is in the catalogue exactly when it is the item of a named, unskipped meta |
| DocsApps.ItemsMembers | docs/src/data/apps.ts:70-74 | an item is among the mapped items exactly when it is the item of a kept meta |
| DocsApps.ItemOfListed | docs/src/data/apps.ts:70-74 | each mapped item is the item of a kept meta |
| DocsApps.ListedItem | docs/src/data/apps.ts:70-74 | the item of each kept meta is among the mapped items |
| DocsApps.AppsNamedAndTyped | docs/src/data/apps.ts:22-70 | every catalogue item has a name, and its type is `app` or `base` when the metas' categories are |
| DocsFilters.LowerIdempotent | docs/src/composables/useFilters.ts:33-55 | lowering twice is lowering once |
| DocsFilters.ContainsLower | docs/src/composables/useFilters.ts:55-57 | lowering both sides keeps a substring one |
| DocsFilters.JoinContainsPart | docs/src/composables/useFilters.ts:44-54 | each part of the searchable text is a substring of it |
| DocsFilters.Methods | docs/src/composables/useFilters.ts:28 | the check method of each item, in order |
| DocsFilters.MethodOptionsOrder | docs/src/composables/useFilters.ts:27-30 | the options are `all`, then each check method once, in the order the methods first appear |
| DocsFilters.MethodOptionsMembers | docs/src/composables/useFilters.ts:27-30 | a method is offered after `all` exactly when some item is checked by it |
| DocsFilters.MethodOptionsDistinct | docs/src/composables/useFilters.ts:27-30 | no option repeats when no item's method is itself `all` |
| DocsFilters.FilteredSublist | docs/src/composables/useFilters.ts:35 | the filtered items are items of the catalogue, in catalogue order |
| DocsFilters.BlankQuery | docs/src/composables/useFilters.ts:33-41 | with a blank search box an item is shown exactly when its type and method match, `all` matching any |
| DocsFilters.KeywordQuery | docs/src/composables/useFilters.ts:43-57 | with a search text an item is shown exactly when its type and method match and its lowered searchable text contains the trimmed, lowered keyword |
| DocsFilters.VariantNameFound | docs/src/composables/useFilters.ts:43-57 | a keyword found, in any case, in one of the item's variant names finds the item |
| DocsFilters.TitleFound | docs/src/composables/useFilters.ts:44-57 | a keyword found, in any case, in the title finds the item |
| DocsFilters.PartFound | docs/src/composables/useFilters.ts:44-57 | a keyword found in any of the eight searchable fields is found in the searchable text |
| DocsFilters.ClearedShowsAll | docs/src/composables/useFilters.ts:32-65 | with the filters cleared every item is shown, in catalogue order |
| DocsFilters.FilterState.constructor | docs/src/composables/useFilters.ts:22-25 | the search text starts empty and both filters start at `all` |
| DocsFilters.FilterState.ClearFilters | docs/src/composables/useFilters.ts:61-65 | the three refs go back to their initial values, and every item is shown again |
| DocsStats.UseStats | docs/src/composables/useStats.ts:13-24 | `total` is the number of items, and neither count exceeds it |
| DocsStats.StatsCount | docs/src/composables/useStats.ts:15-16 | `apps` and `base` count the items of each type |
| DocsStats.StatsPartition | docs/src/composables/useStats.ts:15-21 | when every item is an app or a base image, the two counts add up to the total |
| DocsStats.CatalogueStats | docs/src/composables/useStats.ts:15-21 | on the catalogue built from metas whose categories are `app`, `base` or absent, the counts add up to the total |

## Left out

- Subprocesses, the file system and globbing (`exec`, `fs-extra`, `file.ts`, `fast-glob`, `child_process`, `process.exit`): their answers are parameters, as described above.
- Octokit, `compareCommits`, `core.summary`, `core.setOutput` and the `gh.context` payloads: GitHub's side is outside the program; the event name and payload fields are inputs.
- The Markdown and HTML rendering of `buildPRBody`, `generateSummary` and `generateJobSummary`, `generateFileLinks` and `generateImageLinks`: presentation text only. The counts and buckets they print are modelled.
- `handlePullRequestCreation` and `createPr`'s Octokit calls: network effects. The PR data they send is modelled.
- Concurrency: `Promise.all` inside a chunk is checked one app after another, so the insertion order of `results` within a chunk and the interleaving of the apps' git commands in the shared cache are those of a sequential run.
- `CheckApps.CheckAppsManager.CheckAllVersions` requires `Valid()`, that no app object is stored twice; `loadApps` builds a fresh object per path, so every reachable manager meets it.
- `CheckApp.CheckAppContext.ProcessFiles` records results with the corrected merge `CheckApp.MergeVariant`, so a variant stored with a `sha` but no `version` gets the new SHA; the code as written keeps the stale one (`CheckApp.MergeAsWritten`, first row of Findings).
- `CheckApp.UpdatedMetaVariant` is stated for the corrected merge; `CheckApp.MergeAsWrittenKeepsStaleSha` shows where the code as written differs (Findings).
- `MiseUtils.TrimHistory` models `counts` as a dictionary with only own keys; the code as written counts an inherited name such as `constructor` wrongly (`MiseUtils.TrimAsWritten`, second row of Findings).
- `MiseUtils.SaveHistory` writes the history trimmed by the corrected `MiseUtils.Trim`, so a task named after an `Object.prototype` member keeps its new entry; as written it is dropped (`MiseUtils.InheritedTaskDropped`, Findings).
- Regular expressions with user-supplied patterns (`checkver.regex`, `tagPattern`), `semver.valid`, the Ajv validator, JSON parsing and serialisation, base64, `superjson` and `dayjs`: foreign libraries, so they are function parameters. The fixed patterns in the code are modelled by hand, including `.` not matching line terminators.
- `localeCompare`: a parameter `localeLeq` that is required to be a total preorder, because its collation is not part of the program.
- `String.prototype.replace` replacement patterns (`$&`, `$1`, `$$`): replacement text is inserted literally, so a new version or context containing `$` is not modelled.
- Strings are sequences of Unicode scalar values and JavaScript strings are UTF-16 units, so lengths, `slice` and the default `sort()` order (`Manifest.TextLeq` compares code points) differ for characters outside the Basic Multilingual Plane.
- `toLowerCase` lowers ASCII letters only: there is no Unicode case mapping.
- `Object.entries`/`Object.keys` list integer-like keys first and the others in insertion order; records are modelled as insertion-ordered sequences of pairs.
- Inherited `Object.prototype` names used as keys (`constructor`, `toString`): the as-written history trim is modelled with them (`MiseUtils.TrimAsWritten`, `MiseUtils.InheritedTaskDropped`, see Findings); everywhere else, `Config.CreatePrMapping` and the other records included, keys are looked up as own properties.
- `Number(...)` and `Number.parseInt` are modelled for decimal digit strings, with an optional sign for `parseInt`; other numeric syntaxes are `NaN` in the model, and integers are unbounded.
- `Date.now`, durations, ISO timestamps and the `generated` time: clock values are inputs; `updatedAt` is kept as epoch seconds rather than rendered as an ISO string.
- `getRandomColor`: randomness.
- Logger extras (`formatMessage`, `data`, `json`, `time`, `group`, `setFailed`, `getOptions`): message formatting and output, not decisions.
- `Utils.ChunkArray` requires a size of at least 1, and so does `CheckApps.CheckAppsManager.CheckAllVersions`: with a size of 0 the source loop never ends. `CONCURRENCY=0` and a blank value are accepted by the configuration (`Config.ConcurrencyFromEnv`, `Config.ConcurrencyBlank`) and would hang the run; a `NaN` value (`None` in the model) gives a single empty chunk in the source, which the model does not follow.
- `path.join` normalisation (`..`, repeated `/`): paths are joined with one `/`.
- `VersionHandler.AppVersionHandler.Check`: `cloneRepository` and `cleanup` are left out (they only touch the file system), so a clone failure is not one of the error paths; the meta is resolved field by field rather than through its JSON text, so a placeholder that breaks the JSON syntax is not modelled.
- `VersionHandler`: a malformed `package.json` that makes `readJSON` throw is not modelled; a missing `version` in it gives `''` as in the source.
- `GenerateData`: a `meta.json` that parses as `null` passes `applyDefaults` as `{}` but makes `meta.name` throw at `scripts/generate-data.js:200`; the loop catches that and skips the entry, and so does the model (`GenerateData.ReadmeThrows`). The schema file is a parameter (its `properties` with their defaults); the in-place mutation of the variant, `checkver` and `docker` objects is modelled as building new values, so aliasing between the input meta and the result is not; a meta that is not an object at the top level is treated as `{}`.
- `GenerateData.FillIdempotent`: idempotence is proved for the schema-default pass; for the variant pass only that it keeps set values (`GenerateData.FillKeeps`) and that `enabled` is set (`GenerateData.FillVariantEnabled`).
- `GenerateData.Generate`: the sort is stated as sorted and a permutation; stability of the JavaScript `sort` among equal times is not stated.
- `MiseUtils`: `getContextOptions`, `promptHistory`, `promptSaveLog`, `assertNotCancel`, `exec`, `ensureActAvailable`, `confirmAndRun` and `ensureDataDir` are prompts and process control.
- `MetaApps.LoadAppContext`: the `!pathExists(...)` guard tests a promise, which is always truthy, so the guard never fires; the model follows that.
- `Manifest`: `fg.glob`, `readJson` and `readFile` are parameters; a workflow missing on disk stops the run at that file, as `null!.replace` throws.
- Vue reactivity: `computed` values are functions of the refs and the item list, re-evaluated on each read.
- `DocsApps.Normalize` requires a name, because `Meta.name` is a required field; the catalogue keeps only named metas anyway.
- `DocsFilters.MethodOptionsDistinct` requires that no item's check method is `all`; when one is, `all` is offered twice, which `DocsFilters.MethodOptionsOrder` still allows.
- Stubs and UI code (`BaseVersionHandler`, `SyncVersionHandler`, the `useCheckVersion` dispatch, `docs/app.js`, `storage.ts`, `i18n.ts`, `useTheme.ts`, `formatters.ts`) and entry points (`index.ts`, `check.ts`, `metadata.ts`, `actions/resolve-meta.ts`) are not part of this model; only the title pattern of `resolve-meta.ts` is.

## Findings

| source | as written | input that shows it | evidently intended | confidence | as-written member | corrected member |
|---|---|---|---|---|---|---|
| action/src/context/checkAppContext.ts:123-125 | when a variant lacks a version or a SHA, `{ version: result.version, sha: result.sha, ...meta.variants[name] }` copies the variant's own fields over the new ones | a variant stored with `sha: "abc1234"` and no `version`, updated to `1.2.0` at `def5678`: the meta keeps `sha: "abc1234"` | the variant holds the new version and SHA, with the new fields first in key order | not executed | CheckApp.MergeAsWrittenKeepsStaleSha | CheckApp.MergeVariantRecords |
| mise-tasks/lib/utils.mjs:124-127 | `counts` is a plain `{}`, so for a task whose name is inherited from `Object.prototype` the count starts from the inherited function, adding 1 gives a string, and `<= 20` is false | `saveHistory("constructor", [], label)` writes a history without the new entry | each task keeps its first 20 entries, the new one always among them | not executed; unreachable with the repository's task names | MiseUtils.InheritedTaskDropped | MiseUtils.TrimPerTask |
