# ldc resource paths and tab completion, in Dafny

This project models the resource-path addressing and completion engine of
`ldc`, the LaunchDarkly command-line shell, and proves properties of it.

- **Resource paths** (`path.dfy`, module `Paths`). A `ResourcePath` is a
  string: "/proj/env/flag" is absolute, "//cfg/proj/env/flag" is absolute and
  qualified by the config `cfg`, and anything else is relative. `IsAbs`,
  `Config`, `Keys`, `Depth` and `NewAbsPath` are total functions over the
  text. They are built on a model of Go's `strings.Split` and
  `strings.Join` (`strings.dfy`).
- **`ReplaceDefaults`** (`completer.dfy`, module `Completion`). It replaces
  the leading "..." placeholders of a path with the keys of the default path
  for that path's config. It scans from the left and stops at the first
  named key, at the requested depth, or where the default path runs out.
- **`Completer.GetCompletions`** (`completer.dfy`). It classifies a partly
  typed path:
  - a relative path completes under the default path;
  - "//" and "//cfg" complete with the config lister;
  - any other absolute path completes under its resolved parent.

  It picks one lister by depth and decorates each option with a prefix and a
  suffix. It adds the "/", "//" and "..." extras and sorts the result
  (`sorting.dfy` models the string order of Go's `sort.Strings`).
- **`getDefaultPath`** (`session.dfy`, module `Session`). This is the
  default-path source of the shell. It reads the session's current config,
  project and environment and the loaded configuration file.
- **The flag commands' path helpers** (`flag_paths.dfy`, module
  `FlagPaths`). These are:
  - the per-project and per-environment path views;
  - `realFlagPath` and `realFlagConfigPath`;
  - the listers and the two flag completers;
  - how `getFlagArg` and `getFlagConfigArg` turn their argument, or the
    flag the user picked, into a path.
- **The repository's own test vectors** (`examples.dfy`, module `Examples`),
  stated as lemmas.

Listers and the default-path source are function values returning a
`Result`. The lister chain is a `seq<Option<Lister>>`, and `None` stands for
the `nil` listers that the tests leave at unused depths.

A Go panic becomes a precondition:
- a lister index out of range;
- a `nil` lister that gets called.

`Completion.Callable` states exactly when `GetCompletions` does not panic.
`Completion.ShallowIsCallable` shows that a chain of present listers never
panics on a path no deeper than the chain. This holds when the default path
fits the parent: for a parent without a config, the default path's first
key must not be empty (`Completion.SourceFits`). Otherwise splicing an empty
first key into "/" would turn the parent's text into a config path. For a
well-formed session, the shell's own source, `Session.GetDefaultPath`,
always fits (`Session.SourceFitsEverywhere`).

`GetCompletions` at the root of a config does two things wrong (see
"## Findings"). The model therefore has two variants: `AsWritten`, which is
the source, and `Corrected`. `FlagPaths.FlagCompleter` and
`FlagPaths.FlagEnvCompleter` are the source's completers, built on the
as-written `GetCompletions`. `FlagPaths.FlagCompleterCorrected` and
`FlagPaths.FlagEnvCompleterCorrected` are the same completers built on the
corrected one. The two variants are proved to agree:
- on every path without a config and at the config level, when the call
  does not panic (`Completion.Callable`) and the default path fits the
  original parent (`Completion.SourceFits`)
  (`Completion.CorrectionOnlyUnderConfig`);
- on every path of two or more keys whose first key is neither empty nor
  "...", when the call does not panic
  (`Completion.CorrectionOnlyAtConfigRoot`).

They differ directly under a config ("//cfg/p"). Agreement is not proved
for config paths whose first key is "..." or empty.

## Model

| member | source | states |
|---|---|---|
| Paths.IsAbs | cmd/internal/path/path.go:14-16 | A path is absolute exactly when its first character is '/'. |
| Paths.Config | cmd/internal/path/path.go:19-25 | The config is present exactly when the text starts with "//". It is then a separator-free segment that follows "//" and runs to the next '/' or to the end. |
| Paths.Keys | cmd/internal/path/path.go:28-40 | No key contains the separator. |
| Paths.KeysReassemble | cmd/internal/path/path.go:28-40 | Config and keys rebuild the text exactly: a relative path is the join of its keys; "/" and the join for an absolute path; "//", the config, "/" and the join for a qualified path. The config segment is therefore never among the keys. Without a config, the first key is empty only for a relative path with a single key. |
| Paths.Depth | cmd/internal/path/path.go:43-45 | A relative path always has at least one key. |
| Paths.DepthZero | cmd/internal/path/path.go:28-45 | An absolute path without a config has depth 0 exactly when it is "/". A path with a config has depth 0 exactly when it is "//" and the config. |
| Paths.NewAbsPath | cmd/internal/path/path.go:48-54 | A built path is always absolute. |
| Paths.NewAbsPathSnoc | cmd/internal/path/path.go:48-54 | Building with one more key appends "/" and that key to the text. |
| Paths.NewAbsPathConfig | cmd/internal/path/path.go:19-54 | A path built under a separator-free config reads back with that config, whatever its keys (none included). |
| Paths.NewAbsPathNoConfig | cmd/internal/path/path.go:19-54 | A path built without a config reads back with none when it has no keys, or when its first key is non-empty and does not start with '/'. |
| Paths.NewAbsPathRoundTrip | cmd/internal/path/path.go:28-54 | A built path reads back with the same config and the same keys. This needs at least one key, no separators, and a non-empty first key when there is no config. |
| Paths.AbsPathRebuilt | cmd/internal/path/path.go:19-54 | Every absolute path except "//cfg" (a config with no keys) is rebuilt exactly from its config and keys. |
| Strings.Split | cmd/internal/path/path.go:23-29 | Go's `strings.Split`: at least one part, and no part contains the separator. For a non-empty text, the first part is empty exactly when the text starts with the separator. |
| Strings.SplitJoinsBack | cmd/internal/path/path.go:23-29 | Joining the parts of a split gives the text back. |
| Strings.SplitJoin | cmd/internal/path/path.go:53 | Splitting the join of a non-empty list of separator-free parts gives the parts back. |
| Sorting.Sort | cmd/internal/path/completer.go:135 | `sort.Strings`: the result is sorted under lexicographic order and is a permutation (same multiset) of the input. |
| Sorting.SortedUnique | cmd/internal/path/completer.go:135 | Two sorted sequences with the same multiset are equal. So sorting determines the result uniquely from its contents. |
| Completion.ReplaceDefaults | cmd/internal/path/completer.go:141-158 | A path that does not start with a placeholder (within the depth) comes back unchanged. Every error is one that the default-path source gave. |
| Completion.ReplaceDefaultsClosedForm | cmd/internal/path/completer.go:141-158 | The loop against an independent closed form. When the scan starts on a placeholder and the source fails, the result is exactly that error. When the source succeeds, the result is the path with its maximal run of leading placeholders replaced by default keys. That run is bounded by the depth and by the default path's depth. This holds for a default path that fits the path (`Completion.SourceFits`: without a config, its first key is not empty), as the shell's own source always does for a well-formed session (`Session.SourceFitsEverywhere`). |
| Completion.ReplaceDefaultsKeys | cmd/internal/path/completer.go:141-158 | Key by key, a successful substitution keeps the config and the depth. The leading placeholders take the default keys at the same positions, and every other key is kept as typed. This holds for a default path that fits the path (`Completion.SourceFits`), as in `Completion.ReplaceDefaultsClosedForm`. |
| Completion.OriginalParentShape | cmd/internal/path/completer.go:73 | The original parent keeps the config and drops the last key. Directly under a config it is "//cfg/", whose single key is "". |
| Completion.ShallowIsCallable | cmd/internal/path/completer.go:84-117 | A chain with a config lister and no `nil` listers cannot panic on any path whose depth is at most the chain's length. This needs the default path to fit the original parent: without a config, its first key is not empty. |
| Completion.GetCompletions | cmd/internal/path/completer.go:51-138 | A successful completion is sorted. |
| Completion.GetCompletionsCorrected | cmd/internal/path/completer.go:51-138 | A successful corrected completion is sorted. |
| Completion.CompleteContents | cmd/internal/path/completer.go:122-135 | The chosen lister exists. Its error is returned with no partial results. On success, the suggestions are exactly (as a multiset) the decorated options and the decorated extras. |
| Completion.RelativeCompletions | cmd/internal/path/completer.go:112-135 | A relative path completes under the default path for no config, using the last lister. The options are undecorated and "/" is added. The source's or the lister's error is returned unchanged. |
| Completion.ConfigLevelCompletions | cmd/internal/path/completer.go:63-71 | "//" and "//cfg" are listed by the config lister, called on the typed path. Each option is rendered as "//" + name + "/", with no extras. |
| Completion.AbsoluteCompletions | cmd/internal/path/completer.go:73-135 | The lister at the resolved parent's depth lists that parent. Its options get a prefix: the original (unresolved) parent plus "/", or "/" at the root. They get a "/" suffix exactly when a deeper lister exists. "..." is offered exactly when the parent is all placeholders and the default path is as deep as the chain. "/" alone also gets "//". The lister's error is returned unchanged. |
| Completion.AbsoluteErrors | cmd/internal/path/completer.go:73-92 | For an absolute path below the config level, a `ReplaceDefaults` error is returned unchanged. So is a default-path source error once the parent resolves. |
| Completion.ExtraSuggested | cmd/internal/path/completer.go:132-134 | Every extra appears in the result after the prefix once the lister succeeds. |
| Completion.CorrectedPrefixReplacesLastKey | cmd/internal/path/completer.go:104-108 | The corrected prefix is exactly the typed text before its last key. The prefix as written is the same except directly under a config. |
| Completion.TextBeforeLastKey | cmd/internal/path/completer.go:104-108 | The text before the last key, followed by that key, is the typed path. |
| Completion.CorrectedCompletionsReplaceLastKey | cmd/internal/path/completer.go:104-134 | With the correction, every lister option o is suggested as the typed text with its last key replaced by o and the suffix. |
| Completion.CorrectedRootOffersDefault | cmd/internal/path/completer.go:93-103 | With the correction, "..." is offered at every root of depth 0, with or without a config, when the default path is as deep as the chain. |
| Completion.CorrectionOnlyUnderConfig | cmd/internal/path/completer.go:61-138 | For relative paths, the config level and every path without a config, the corrected and the as-written completions are identical. This needs a call that does not panic, and a default path that fits the original parent (without a config, its first key is not empty). |
| Completion.CorrectionOnlyAtConfigRoot | cmd/internal/path/completer.go:73-108 | For an absolute path of two or more keys whose first key is neither empty nor "...", the corrected and the as-written completions are identical. |
| Session.GetDefaultPath | cmd/config.go:417-432 | A missing config key falls back to the current config. The result fails, with "config not found", exactly when that config is not in the configuration file. Every successful result is absolute. |
| Session.DefaultPathKeys | cmd/config.go:417-432 | A default path reads back with the config it was looked up under and exactly two keys: that config's default project and environment, or the session's own when there is no config. |
| FlagPaths.AccessorsReadKeys | cmd/flag.go:153-194 | The accessors read back the keys a path was built from: project and flag of a two-key path; project, environment and flag of a three-key path. The config and the depth are kept too. |
| FlagPaths.PerProjectKeepsProjectAndKey | cmd/flag.go:192-194 | Dropping the environment keeps the config, the project and the flag key, and gives a two-key path. |
| FlagPaths.RealFlagPath | cmd/flag.go:165-174 | Any depth other than 2 is "invalid path". At depth 2 the only error is "config not found". |
| FlagPaths.RealFlagPathResolves | cmd/flag.go:153-174 | The resolved flag path keeps the config, the depth and the flag key. The project is the default project exactly when "..." was typed for it. Resolution fails only then, when the config is missing. |
| FlagPaths.RealFlagConfigPath | cmd/flag.go:196-205 | Any depth other than 3 is "invalid path". At depth 3 the only error is "config not found". |
| FlagPaths.RealFlagConfigPathResolves | cmd/flag.go:176-205 | The config and the flag key are kept. A leading "..." project takes the default project. The environment takes the default only when both the project and the environment were typed as "...". |
| FlagPaths.ProjLister | cmd/flag.go:211-214 | Any parent built under a config lists that config's projects, whatever its keys. "/" lists the projects of no config. |
| FlagPaths.EnvLister | cmd/flag.go:216-219 | A parent built from a config and keys lists the environments of its first key, the project, under that config. |
| FlagPaths.FlagLister | cmd/flag.go:207-209 | A parent built from a config and keys lists the flags of its first key, the project, under that config. |
| FlagPaths.ConfigLister | cmd/flag.go:221-224 | It never fails. It returns one separator-free entry per key of the path, so at the config level it returns nothing. Below the config level, the entries with the path's config rebuild the path. |
| FlagPaths.ConfigListerListsBuiltKeys | cmd/flag.go:221-224 | A path built from a config and keys lists exactly those keys. |
| FlagPaths.FlagCompleter | cmd/flag.go:226-234 | More than one argument gives no suggestions. Otherwise the suggestions are sorted. |
| FlagPaths.FlagEnvCompleter | cmd/flag.go:236-244 | The same, over the three-level chain. |
| FlagPaths.FlagCompleterCorrected | cmd/flag.go:226-234 | `flagCompleter` over the corrected completion: no suggestions for more than one argument, otherwise sorted. |
| FlagPaths.FlagEnvCompleterCorrected | cmd/flag.go:236-244 | The same, over the three-level chain. |
| FlagPaths.CorrectedFlagCompletersAgree | cmd/flag.go:226-244 | On an argument without a config, or at the config level, no deeper than the chain, the corrected completers return exactly what the source's do. |
| FlagPaths.FlagCompleterPanicsTooDeep | cmd/flag.go:226-234 | An absolute argument of three or more keys without a config, whose first key is not "...", such as "/a/b/c", makes `flagCompleter` index past its two-lister chain. |
| FlagPaths.FlagCompleterCallable | cmd/flag.go:226-244 | Neither completer panics on an argument no deeper than its chain. |
| FlagPaths.FlagCompleterRelative | cmd/flag.go:207-234 | A relative argument gets the flags of the default project under the current config, plus "/". It gets nothing if the config is missing or the listing fails. |
| FlagPaths.ListedParentHasKey | cmd/flag.go:207-219 | The environment and flag listers are only ever handed a parent that has a first key. So their indexing never panics. |
| FlagPaths.FlagCompleterConfigLevel | cmd/flag.go:221-244 | At the config level both completers suggest nothing, because the config lister lists the keys of a path that has none. |
| FlagPaths.ExpandFlagArg | cmd/flag.go:248-252 | A bare key becomes the path of that flag under the current config and project. Every other argument is kept as typed. |
| FlagPaths.ExpandFlagConfigArg | cmd/flag.go:290-294 | A bare key becomes the path of that flag under the current config, project and environment. Every other argument is kept as typed. |
| FlagPaths.FlagArg | cmd/flag.go:246-260 | An argument at `pos` is expanded. Without one, the picked flag is placed under the current config and project. |
| FlagPaths.FlagConfigArgAsWritten | cmd/flag.go:288-302 | An argument at `pos` is expanded. Without one, the picked flag is placed under the current config and project only: two keys, with no environment. |
| FlagPaths.FlagConfigArg | cmd/flag.go:288-302 | Corrected: without an argument, the picked flag is placed under the current config, project and environment. |
| FlagPaths.BareKeyResolves | cmd/flag.go:246-262 | A bare key typed as the argument resolves to that flag of the current project, under the current config, for a current project that is not itself "...". |
| FlagPaths.BareConfigKeyResolves | cmd/flag.go:288-304 | A bare key resolves to that flag of the current project and environment, under the current config, for a current project that is not itself "...". |
| FlagPaths.ChosenFlagResolves | cmd/flag.go:253-262 | With no argument, the flag the user picked resolves under the current project and config. |
| FlagPaths.ChosenFlagConfigRejected | cmd/flag.go:295-304 | As written, with no argument, the picked flag's path is always refused with "invalid path". |
| FlagPaths.ChosenFlagConfigResolves | cmd/flag.go:295-304 | Corrected, the picked flag resolves under the current project, environment and config. |
| Examples.ParseEmpty | cmd/internal/path/path_test.go:19 | "" has no config, the keys [""], and is relative. |
| Examples.ParseRoot | cmd/internal/path/path_test.go:23 | "/" has no config, no keys, and is absolute. |
| Examples.ParseRelative | cmd/internal/path/path_test.go:18 | "flagA" has no config, the keys ["flagA"], and is relative. |
| Examples.ParseAbsolute | cmd/internal/path/path_test.go:21 | "/flagA" has no config, the keys ["flagA"], and is absolute. |
| Examples.ParseQualified | cmd/internal/path/path_test.go:22 | "//configA/flagA" has the config "configA" and the keys ["flagA"]. |
| Examples.ParseEmptyConfig | cmd/internal/path/path_test.go:24 | "///" has the config "" and the keys [""]. |
| Examples.EmptyFirstKeyReadsAsConfig | cmd/internal/path/path.go:48-54 | Building with no config and an empty first key gives "//env", which reads back with a config. So the round trip needs its non-empty-first-key condition. |
| Examples.ReplaceDefaultsFirstKey | cmd/internal/path/completer_test.go:136 | "/.../default-env" becomes "/default-proj/default-env". |
| Examples.ReplaceDefaultsStopsAtNamedKey | cmd/internal/path/completer_test.go:137 | "/default-proj/..." is unchanged. |
| Examples.ReplaceDefaultsUpToDepth | cmd/internal/path/completer_test.go:138 | "/..." at depth 1 becomes "/default-proj". |
| Examples.RelativeExample | cmd/internal/path/completer_test.go:30-38 | "" completes to ["/", "flagA"], with the lister handed the default path. |
| Examples.SortedExample | cmd/internal/path/completer_test.go:50-57 | Options in any order come back sorted: ["/", "flagA", "flagB", "flagC"]. |
| Examples.RootExample | cmd/internal/path/completer_test.go:40-48 | "/" completes to ["/...", "//", "/projA"], for any source that gives the default path for no config. |
| Examples.RootSuffixExample | cmd/internal/path/completer_test.go:59-68 | With a deeper lister, "/" completes to ["/.../", "//", "/projA/"]. |
| Examples.ConfigDefaultsExample | cmd/internal/path/completer_test.go:72-85 | "//configA/.../.../" lists the flags of "//configA/defaultProj/defaultEnv" and suggests "//configA/.../.../flagA". |
| Examples.ConfigListExample | cmd/internal/path/completer_test.go:102-110 | "//" completes to ["//my-config/"]. |
| Examples.ProjectLevelExample | cmd/internal/path/completer_test.go:112-125 | "/projA/" lists the environments of "/projA" and does not offer "...". |
| Examples.ConfigRootAsWritten | cmd/internal/path/completer.go:93-108 | As written, "//cfg/p" completes to ["//cfg//projA/"]: a doubled separator and no "...". |
| Examples.ConfigRootSuggestionKeys | cmd/internal/path/completer.go:104-108 | The as-written suggestion "//cfg//projA/" reads back with an empty project key. |
| Examples.ConfigRootCorrected | cmd/internal/path/completer.go:93-108 | Corrected, "//cfg/p" completes to ["//cfg/.../", "//cfg/projA/"], as "/p" does without a config. |

## Left out

- The diagnostic `fmt.Printf` of the options (cmd/internal/path/completer.go:126) is output, not a result.
- `String()` is the identity, because a path is its string.
- The `ListerFunc` and `DefaultPathSourceFunc` adapters, which turn functions into interfaces, are not modelled: listers and sources are function values used directly. `NewCompleter` is the `Completer` constructor.
- Panics: an out-of-range lister index (cmd/internal/path/completer.go:84, 117) and a `nil` lister being called are not modelled as behaviour. `Completion.Callable` excludes them as a precondition.
- `FlagPaths.EnvLister` and `FlagPaths.FlagLister` return a failure where Go would index a missing key and panic. `FlagPaths.ListedParentHasKey` shows that no completer reaches that case.
- The service calls `listProjectKeys`, `listEnvironmentKeys` and `listFlagKeys` are parameters (`FlagPaths.Api`), because they are network I/O.
- `chooseFlagFromCurrentProject` (cmd/flag.go:276-286) is left out because it is an interactive choice. Its result is the parameter `chosen`, and its error and abort paths are left out. `getFlag` after resolution is a network call and is left out too.
- `firstOrEmpty` is not part of this model's sources. It is taken to be the first argument, or "" when there is none.
- In Go, `ReplaceDefaults` returns "" alongside an error. The model returns only the error, since every caller discards the path on error.
- The flag completers discard the completion error, and Go then returns `nil`. The model returns the empty sequence.
- `currentConfig` is a `*string` in cmd/config.go and cmd/flag.go, and the model uses `Option<string>`. The older declaration in cmd/root.go is not part of this model.
- The keys the service hands out and the names in the configuration file are assumed to contain no '/', and project keys are assumed to be non-empty (`Session.WellFormed`, `Session.ValidKey`). The source never checks this, and the lemmas about resolution need it.
- String order is lexicographic order on characters. For Unicode scalar values this agrees with Go's byte-wise order on UTF-8.
- The goal-path helpers in cmd/goal.go are not modelled, and neither are the other commands' completers. The goal helpers are internally inconsistent: `realGoalPath` accepts only depth 2 while `getGoalArg` builds a three-key path.
- Completion.GetCompletions: its own ensures states only that the result is sorted. Its contents are stated by `Completion.RelativeCompletions`, `Completion.ConfigLevelCompletions`, `Completion.AbsoluteCompletions` and `Completion.CompleteContents`.
- FlagPaths.FlagCompleter: its own ensures states only the argument-count case and sortedness. The contents are stated by `FlagPaths.FlagCompleterRelative`, `FlagPaths.FlagCompleterConfigLevel` and the completion lemmas.
- FlagPaths.FlagEnvCompleter: the same as `FlagPaths.FlagCompleter`.
- FlagPaths.FlagCompleterCorrected: the same as `FlagPaths.FlagCompleter`. Where it agrees with the source is stated by `FlagPaths.CorrectedFlagCompletersAgree`.
- FlagPaths.FlagEnvCompleterCorrected: the same as `FlagPaths.FlagCompleterCorrected`.
- Completion.GetCompletionsCorrected: the same as `Completion.GetCompletions`. Its contents are stated by `Completion.CorrectedCompletionsReplaceLastKey`, `Completion.CorrectedRootOffersDefault` and `Completion.CompleteContents`.
- Paths.Keys: its own ensures states only that keys are separator-free. The exact shape is stated by `Paths.KeysReassemble`.

## Findings

| source | as written | input that shows it | evidently intended | confidence | as-written member | corrected member |
|---|---|---|---|---|---|---|
| cmd/internal/path/completer.go:104-108 | The prefix is the original parent plus "/". Directly under a config the original parent is "//cfg/", so the prefix is "//cfg//". | "//cfg/p" with a project lister returning "projA" suggests "//cfg//projA/". That suggestion reads back with an empty project key. | The prefix is the typed text before the last key, "//cfg/", as "/" is for "/p". | high; not executed | Examples.ConfigRootAsWritten | Completion.CorrectedPrefixReplacesLastKey |
| cmd/internal/path/completer.go:93-103 | "..." is offered only when every key of the resolved parent is "...". The config root "//cfg/" has the single key "", so "..." is never offered there. | "//cfg/p" with a default path two keys deep offers no "//cfg/.../". "/p" does offer "/.../". | A parent at depth 0 (the code's own `trueParentDepth` adjustment) offers "..." with or without a config. | medium; not executed | Examples.ConfigRootAsWritten | Completion.CorrectedRootOffersDefault |
| cmd/flag.go:301 | With no argument, `getFlagConfigArg` builds "/project/flag" from the picked flag. `realFlagConfigPath` refuses every path without three keys. | Any call with no argument at `pos` and a picked flag key fails with "invalid path". | The current environment goes between the project and the flag, as for a bare key (cmd/flag.go:293). | high; not executed | FlagPaths.ChosenFlagConfigRejected | FlagPaths.ChosenFlagConfigResolves |

For both completer findings, `Completion.GetCompletionsCorrected` is the
corrected definition. `FlagPaths.FlagCompleterCorrected` and
`FlagPaths.FlagEnvCompleterCorrected` are built on it, and
`Examples.ConfigRootCorrected` shows the corrected suggestions for "//cfg/p".
`FlagPaths.FlagConfigArg` is the corrected `getFlagConfigArg`, and
`FlagPaths.FlagConfigArgAsWritten` is the source as written.

A further observation, not a row above, because it has no evident
corrected form: `flagCompleter` (cmd/flag.go:226-234) panics on an absolute
argument deeper than its chain. For "/a/b/c" the resolved parent "/a/b" has
depth 2, and `GetCompletions` indexes `c.listers[2]` of a two-lister chain
(cmd/internal/path/completer.go:84). `FlagPaths.FlagCompleterPanicsTooDeep`
shows that such an argument falls outside `Completion.Callable`.
`flagEnvCompleter` does the same from four keys on.
