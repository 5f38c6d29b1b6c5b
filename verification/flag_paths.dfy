/** The flag commands' use of resource paths: the per-project and
    per-environment path views, their resolution against the session's
    default path, the listers handed to the completer, the two flag
    completers, and the expansion of a bare flag key typed as an
    argument. */
module FlagPaths {
  import opened Wrappers
  import opened Sorting
  import opened Paths
  import opened Completion
  import opened Session

  /** A flag path "/project/flag": an accessor whose key is missing panics
      in the source, so each carries a precondition. */
  datatype PerProjectPath = PerProjectPath(path: ResourcePath)
  {
    function Project(): string
      requires Depth(path) >= 1
    {
      Keys(path)[0]
    }

    function Key(): string
      requires Depth(path) >= 2
    {
      Keys(path)[1]
    }
  }

  /** A flag-configuration path "/project/environment/flag". */
  datatype PerEnvironmentPath = PerEnvironmentPath(path: ResourcePath)
  {
    function Project(): string
      requires Depth(path) >= 1
    {
      Keys(path)[0]
    }

    function Environment(): string
      requires Depth(path) >= 2
    {
      Keys(path)[1]
    }

    function Key(): string
      requires Depth(path) >= 3
    {
      Keys(path)[2]
    }

    /** The same flag seen per project: "/project/flag", same config. */
    function PerProject(): PerProjectPath
      requires Depth(path) >= 3
    {
      PerProjectPath(NewAbsPath(Config(path), [Project(), Key()]))
    }
  }

  /** Dropping the environment keeps the config, the project and the flag. */
  lemma PerProjectKeepsProjectAndKey(p: PerEnvironmentPath)
    requires Depth(p.path) == 3
    ensures var q := p.PerProject();
      && Depth(q.path) == 2
      && Config(q.path) == Config(p.path)
      && q.Project() == p.Project()
      && q.Key() == p.Key()
  {
    KeysReassemble(p.path);
    NewAbsPathRoundTrip(Config(p.path), [p.Project(), p.Key()]);
  }

  /** The accessors read the keys a path was built from: project and flag
      of "/project/flag", project, environment and flag of
      "/project/environment/flag". */
  lemma AccessorsReadKeys(c: Option<string>, project: string, env: string, key: string)
    requires Rebuildable(c, [project, env, key])
    ensures var p := PerEnvironmentPath(NewAbsPath(c, [project, env, key]));
      && Depth(p.path) == 3 && Config(p.path) == c
      && p.Project() == project && p.Environment() == env && p.Key() == key
    ensures var q := PerProjectPath(NewAbsPath(c, [project, key]));
      && Depth(q.path) == 2 && Config(q.path) == c
      && q.Project() == project && q.Key() == key
  {
    NewAbsPathRoundTrip(c, [project, env, key]);
    assert [project, env, key][2] == key;
    NewAbsPathRoundTrip(c, [project, key]);
  }

  /** `realFlagPath`: exactly two keys, with a leading "..." replaced by
      the default project. Any other depth is "invalid path"; the only
      other error is a missing config. */
  function RealFlagPath(s: State, p: ResourcePath): (r: Result<PerProjectPath, string>)
    ensures Depth(p) != 2 ==> r == Failure("invalid path")
    ensures Depth(p) == 2 && r.Failure? ==> r.error == "config not found"
  {
    if Depth(p) != 2 then Failure("invalid path")
    else
      var np :- ReplaceDefaults(p, Source(s), 1);
      Success(PerProjectPath(np))
  }

  /** `realFlagConfigPath`: exactly three keys, with leading "..." keys
      among the first two replaced by the default project and
      environment. */
  function RealFlagConfigPath(s: State, p: ResourcePath): (r: Result<PerEnvironmentPath, string>)
    ensures Depth(p) != 3 ==> r == Failure("invalid path")
    ensures Depth(p) == 3 && r.Failure? ==> r.error == "config not found"
  {
    if Depth(p) != 3 then Failure("invalid path")
    else
      var np :- ReplaceDefaults(p, Source(s), 2);
      Success(PerEnvironmentPath(np))
  }

  /** The resolved flag path: same config and flag key; the project is the
      default project exactly when "..." was typed for it, and resolution
      fails only then, when the config is missing. */
  lemma RealFlagPathResolves(s: State, p: ResourcePath)
    requires WellFormed(s) && Depth(p) == 2
    ensures Keys(p)[0] != Placeholder ==> RealFlagPath(s, p) == Success(PerProjectPath(p))
    ensures RealFlagPath(s, p).Failure? <==>
      Keys(p)[0] == Placeholder && GetDefaultPath(s, Config(p)).Failure?
    ensures RealFlagPath(s, p).Success? ==>
      var q := RealFlagPath(s, p).value;
      && Depth(q.path) == 2
      && Config(q.path) == Config(p)
      && q.Project() == (if Keys(p)[0] == Placeholder then DefaultKeys(s, Config(p))[0] else Keys(p)[0])
      && q.Key() == Keys(p)[1]
  {
    SourceFitsEverywhere(s, p);
    ReplaceDefaultsClosedForm(p, Source(s), 1);
    if GetDefaultPath(s, Config(p)).Success? {
      DefaultPathKeys(s, Config(p));
      ReplaceDefaultsKeys(p, Source(s), 1);
      assert Source(s)(Config(p)) == GetDefaultPath(s, Config(p));
    }
  }

  /** The resolved flag-configuration path: the environment is the default
      one only when both project and environment were typed as "..."; a
      "..." environment after a named project stays as typed. */
  lemma RealFlagConfigPathResolves(s: State, p: ResourcePath)
    requires WellFormed(s) && Depth(p) == 3
    ensures Keys(p)[0] != Placeholder ==> RealFlagConfigPath(s, p) == Success(PerEnvironmentPath(p))
    ensures RealFlagConfigPath(s, p).Failure? <==>
      Keys(p)[0] == Placeholder && GetDefaultPath(s, Config(p)).Failure?
    ensures RealFlagConfigPath(s, p).Success? ==>
      var q := RealFlagConfigPath(s, p).value;
      var bothDefault := Keys(p)[0] == Placeholder && Keys(p)[1] == Placeholder;
      && Depth(q.path) == 3
      && Config(q.path) == Config(p)
      && q.Project() == (if Keys(p)[0] == Placeholder then DefaultKeys(s, Config(p))[0] else Keys(p)[0])
      && q.Environment() == (if bothDefault then DefaultKeys(s, Config(p))[1] else Keys(p)[1])
      && q.Key() == Keys(p)[2]
  {
    SourceFitsEverywhere(s, p);
    ReplaceDefaultsClosedForm(p, Source(s), 2);
    if GetDefaultPath(s, Config(p)).Success? {
      DefaultPathKeys(s, Config(p));
      ReplaceDefaultsKeys(p, Source(s), 2);
      assert Source(s)(Config(p)) == GetDefaultPath(s, Config(p));
    }
  }

  // ---------------------------------------------------------------------
  // Listers and completers

  /** The service calls the listers make, as parameters: project keys of a
      config, and environment and flag keys of a project. */
  datatype Api = Api(
    listProjectKeys: Option<string> -> Result<seq<string>, string>,
    listEnvironmentKeys: (Option<string>, string) -> Result<seq<string>, string>,
    listFlagKeys: (Option<string>, string) -> Result<seq<string>, string>)

  /** What the model returns where the source would index a missing key. */
  const IndexOutOfRange := "index out of range"

  /** Paths built from a config and keys read back as those. */
  lemma BuiltParentsReadBack()
    ensures forall c: Option<string>, keys: seq<string> | Rebuildable(c, keys) ::
      Config(NewAbsPath(c, keys)) == c && Keys(NewAbsPath(c, keys)) == keys
  {
    forall c: Option<string>, keys: seq<string> | Rebuildable(c, keys)
      ensures Config(NewAbsPath(c, keys)) == c && Keys(NewAbsPath(c, keys)) == keys
    {
      NewAbsPathRoundTrip(c, keys);
    }
  }

  /** Configs read back from any path built under them. */
  lemma ConfigsReadBack()
    ensures forall c: string, keys: seq<string> | Separator !in c ::
      Config(NewAbsPath(Some(c), keys)) == Some(c)
    ensures Config("/") == None
  {
    forall c: string, keys: seq<string> | Separator !in c
      ensures Config(NewAbsPath(Some(c), keys)) == Some(c)
    {
      NewAbsPathConfig(c, keys);
    }
  }

  /** `projLister`: the projects of the config the parent names, whatever
      its keys; "/" lists those of no config. */
  function ProjLister(api: Api): (r: Lister)
    ensures forall c: string, keys: seq<string> | Separator !in c ::
      r(NewAbsPath(Some(c), keys)) == api.listProjectKeys(Some(c))
    ensures r("/") == api.listProjectKeys(None)
  {
    ConfigsReadBack();
    parent => api.listProjectKeys(Config(parent))
  }

  /** `envLister`: the environments of the parent's first key, the project,
      under the parent's config. */
  function EnvLister(api: Api): (r: Lister)
    ensures forall c: Option<string>, keys: seq<string> | Rebuildable(c, keys) ::
      r(NewAbsPath(c, keys)) == api.listEnvironmentKeys(c, keys[0])
  {
    BuiltParentsReadBack();
    parent => if Depth(parent) >= 1 then api.listEnvironmentKeys(Config(parent), Keys(parent)[0])
              else Failure(IndexOutOfRange)
  }

  /** `flagLister`: the flags of the parent's first key, the project, under
      the parent's config. */
  function FlagLister(api: Api): (r: Lister)
    ensures forall c: Option<string>, keys: seq<string> | Rebuildable(c, keys) ::
      r(NewAbsPath(c, keys)) == api.listFlagKeys(c, keys[0])
  {
    BuiltParentsReadBack();
    parent => if Depth(parent) >= 1 then api.listFlagKeys(Config(parent), Keys(parent)[0])
              else Failure(IndexOutOfRange)
  }

  /** `configLister`: the keys of the path it is given, never an error. A
      completer calls it only at the config level, where there are none. */
  function ConfigLister(p: ResourcePath): (r: Result<seq<string>, string>)
    ensures r.Success? && |r.value| == Depth(p)
    ensures forall i :: 0 <= i < |r.value| ==> Separator !in r.value[i]
    ensures IsConfigLevel(p) ==> r.value == []
    ensures IsAbs(p) && !IsConfigLevel(p) ==> NewAbsPath(Config(p), r.value) == p
  {
    if IsAbs(p) && !IsConfigLevel(p) then
      AbsPathRebuilt(p);
      Success(Keys(p))
    else Success(Keys(p))
  }

  /** `configLister` lists exactly the keys a path was built from. */
  lemma ConfigListerListsBuiltKeys(c: Option<string>, keys: seq<string>)
    requires Rebuildable(c, keys)
    ensures ConfigLister(NewAbsPath(c, keys)) == Success(keys)
  {
    NewAbsPathRoundTrip(c, keys);
  }

  /** The completer behind `flagCompleter`: projects, then flags. */
  function FlagCompletion(s: State, api: Api): Completer
  {
    Completer(Source(s), Some(ConfigLister), [Some(ProjLister(api)), Some(FlagLister(api))])
  }

  /** The completer behind `flagEnvCompleter`: projects, environments,
      then flags. */
  function FlagEnvCompletion(s: State, api: Api): Completer
  {
    Completer(Source(s), Some(ConfigLister),
      [Some(ProjLister(api)), Some(EnvLister(api)), Some(FlagLister(api))])
  }

  /** The first argument, or "" when there is none. */
  function FirstOrEmpty(args: seq<string>): string
  {
    if |args| == 0 then "" else args[0]
  }

  /** `flagCompleter`: no suggestions for more than one argument, and none
      on any error; otherwise the sorted suggestions for the argument. */
  function FlagCompleter(s: State, api: Api, args: seq<string>): (r: seq<string>)
    requires |args| <= 1 ==> Callable(FlagCompletion(s, api), FirstOrEmpty(args))
    ensures |args| > 1 ==> r == []
    ensures Sorted(r)
  {
    if |args| > 1 then []
    else GetCompletions(FlagCompletion(s, api), FirstOrEmpty(args)).GetOr([])
  }

  /** `flagEnvCompleter`, the same over the three-level chain. */
  function FlagEnvCompleter(s: State, api: Api, args: seq<string>): (r: seq<string>)
    requires |args| <= 1 ==> Callable(FlagEnvCompletion(s, api), FirstOrEmpty(args))
    ensures |args| > 1 ==> r == []
    ensures Sorted(r)
  {
    if |args| > 1 then []
    else GetCompletions(FlagEnvCompletion(s, api), FirstOrEmpty(args)).GetOr([])
  }

  /** `flagCompleter` over the corrected completion. */
  function FlagCompleterCorrected(s: State, api: Api, args: seq<string>): (r: seq<string>)
    requires |args| <= 1 ==> Callable(FlagCompletion(s, api), FirstOrEmpty(args))
    ensures |args| > 1 ==> r == []
    ensures Sorted(r)
  {
    if |args| > 1 then []
    else GetCompletionsCorrected(FlagCompletion(s, api), FirstOrEmpty(args)).GetOr([])
  }

  /** `flagEnvCompleter` over the corrected completion. */
  function FlagEnvCompleterCorrected(s: State, api: Api, args: seq<string>): (r: seq<string>)
    requires |args| <= 1 ==> Callable(FlagEnvCompletion(s, api), FirstOrEmpty(args))
    ensures |args| > 1 ==> r == []
    ensures Sorted(r)
  {
    if |args| > 1 then []
    else GetCompletionsCorrected(FlagEnvCompletion(s, api), FirstOrEmpty(args)).GetOr([])
  }

  /** The corrected completers differ from the source's only under a
      config: without one, and at the config level, they agree. */
  lemma CorrectedFlagCompletersAgree(s: State, api: Api, arg: ResourcePath)
    requires WellFormed(s) && Depth(arg) <= 3
    requires Config(arg).None? || Depth(arg) == 0
    ensures Callable(FlagEnvCompletion(s, api), arg)
    ensures FlagEnvCompleterCorrected(s, api, [arg]) == FlagEnvCompleter(s, api, [arg])
    ensures Depth(arg) <= 2 ==> Callable(FlagCompletion(s, api), arg)
    ensures Depth(arg) <= 2 ==> FlagCompleterCorrected(s, api, [arg]) == FlagCompleter(s, api, [arg])
  {
    FlagCompleterCallable(s, api, arg);
    if IsAbs(arg) && Depth(arg) >= 1 {
      SourceFitsEverywhere(s, OriginalParent(arg));
    }
    CorrectionOnlyUnderConfig(FlagEnvCompletion(s, api), arg);
    if Depth(arg) <= 2 {
      CorrectionOnlyUnderConfig(FlagCompletion(s, api), arg);
    }
  }

  /** An absolute argument deeper than the chain, such as "/a/b/c" for
      `flagCompleter`, makes `GetCompletions` index past the chain: the
      source panics there. */
  lemma FlagCompleterPanicsTooDeep(s: State, api: Api, arg: ResourcePath)
    requires IsAbs(arg) && Config(arg).None? && Depth(arg) >= 3
    requires Keys(arg)[0] != Placeholder
    ensures !Callable(FlagCompletion(s, api), arg)
  {
    var original := OriginalParent(arg);
    OriginalParentShape(arg);
    assert Keys(original)[0] == Keys(arg)[0];
    assert ResolveParent(FlagCompletion(s, api), arg) == Success(original);
    assert TrueDepth(original) >= 2;
  }

  /** A flag argument no deeper than the chain never panics. */
  lemma FlagCompleterCallable(s: State, api: Api, arg: ResourcePath)
    requires WellFormed(s)
    ensures Depth(arg) <= 2 ==> Callable(FlagCompletion(s, api), arg)
    ensures Depth(arg) <= 3 ==> Callable(FlagEnvCompletion(s, api), arg)
  {
    if IsAbs(arg) && Depth(arg) >= 1 {
      SourceFitsEverywhere(s, OriginalParent(arg));
    }
    if Depth(arg) <= 2 {
      ShallowIsCallable(FlagCompletion(s, api), arg);
    }
    if Depth(arg) <= 3 {
      ShallowIsCallable(FlagEnvCompletion(s, api), arg);
    }
  }

  /** A relative argument lists the flags of the default project (under
      the current config) and adds "/"; nothing is suggested if the
      current config is missing or the listing fails. */
  lemma FlagCompleterRelative(s: State, api: Api, arg: ResourcePath)
    requires WellFormed(s) && !IsAbs(arg)
    ensures GetDefaultPath(s, None).Failure? ==> FlagCompleter(s, api, [arg]) == []
    ensures GetDefaultPath(s, None).Success? ==>
      var options := api.listFlagKeys(s.currentConfig, DefaultKeys(s, None)[0]);
      && (options.Failure? ==> FlagCompleter(s, api, [arg]) == [])
      && (options.Success? ==>
            multiset(FlagCompleter(s, api, [arg])) == multiset(options.value) + multiset{"/"})
  {
    var c := FlagCompletion(s, api);
    FlagCompleterCallable(s, api, arg);
    RelativeCompletions(c, arg);
    if GetDefaultPath(s, None).Success? {
      DefaultPathKeys(s, None);
      assert c.defaultPathSource(None) == GetDefaultPath(s, None);
    }
  }

  /** The environment and flag listers index the parent's first key; the
      completers only hand them parents that have one: a lister past the
      first position gets a parent at least one key deep, and a relative
      argument gets the two-key default path. */
  lemma ListedParentHasKey(s: State, c: Completer, arg: ResourcePath, variant: Variant)
    requires WellFormed(s) && c.defaultPathSource == Source(s)
    requires Plan(c, arg, variant).Success?
    ensures var setup := Plan(c, arg, variant).value;
      setup.lister.Level? && setup.lister.index >= 1 ==> Depth(setup.parent) >= 1
  {
    if !IsAbs(arg) {
      DefaultPathKeys(s, None);
      assert c.defaultPathSource(None) == GetDefaultPath(s, None);
    }
  }

  /** At the config level ("//" or "//cfg") nothing is suggested: the
      config lister lists the keys of a path with none. */
  lemma FlagCompleterConfigLevel(s: State, api: Api, arg: ResourcePath)
    requires IsConfigLevel(arg)
    ensures FlagCompleter(s, api, [arg]) == []
    ensures FlagEnvCompleter(s, api, [arg]) == []
  {
    ConfigLevelCompletions(FlagCompletion(s, api), arg);
    ConfigLevelCompletions(FlagEnvCompletion(s, api), arg);
  }

  // ---------------------------------------------------------------------
  // Arguments of the flag commands

  /** `getFlagArg`: a bare relative key is the flag of the current project
      under the current config; anything else is used as typed. */
  function ExpandFlagArg(s: State, arg: ResourcePath): (e: ResourcePath)
    ensures IsAbs(arg) || Depth(arg) != 1 ==> e == arg
    ensures !IsAbs(arg) && Depth(arg) == 1 && WellFormed(s) ==>
      Config(e) == s.currentConfig && Keys(e) == [s.currentProject, arg]
  {
    BareKeyIsItsKey(arg);
    if !IsAbs(arg) && Depth(arg) == 1 then
      SessionPathReadsBack(s, [Keys(arg)[0]]);
      NewAbsPath(s.currentConfig, [s.currentProject, Keys(arg)[0]])
    else arg
  }

  /** A relative path of depth 1 is its own single key. */
  lemma BareKeyIsItsKey(arg: ResourcePath)
    ensures !IsAbs(arg) && Depth(arg) == 1 ==> Keys(arg) == [arg]
  {
    KeysReassemble(arg);
  }

  /** A path under the current project reads back as the current config,
      the current project and the given separator-free keys. */
  lemma SessionPathReadsBack(s: State, keys: seq<string>)
    ensures WellFormed(s) && (forall i :: 0 <= i < |keys| ==> ValidKey(keys[i])) ==>
      Config(NewAbsPath(s.currentConfig, [s.currentProject] + keys)) == s.currentConfig
      && Keys(NewAbsPath(s.currentConfig, [s.currentProject] + keys)) == [s.currentProject] + keys
  {
    if WellFormed(s) && (forall i :: 0 <= i < |keys| ==> ValidKey(keys[i])) {
      var ks := [s.currentProject] + keys;
      assert forall i :: 0 <= i < |ks| ==> Separator !in ks[i] by {
        forall i | 0 <= i < |ks| ensures Separator !in ks[i] {
          if i > 0 { assert ks[i] == keys[i - 1]; }
        }
      }
      NewAbsPathRoundTrip(s.currentConfig, ks);
    }
  }

  /** `getFlagConfigArg`: a bare relative key is the flag of the current
      project and environment under the current config. */
  function ExpandFlagConfigArg(s: State, arg: ResourcePath): (e: ResourcePath)
    ensures IsAbs(arg) || Depth(arg) != 1 ==> e == arg
    ensures !IsAbs(arg) && Depth(arg) == 1 && WellFormed(s) ==>
      Config(e) == s.currentConfig && Keys(e) == [s.currentProject, s.currentEnvironment, arg]
  {
    BareKeyIsItsKey(arg);
    if !IsAbs(arg) && Depth(arg) == 1 then
      SessionPathReadsBack(s, [s.currentEnvironment, Keys(arg)[0]]);
      assert [s.currentProject] + [s.currentEnvironment, Keys(arg)[0]]
        == [s.currentProject, s.currentEnvironment, Keys(arg)[0]];
      NewAbsPath(s.currentConfig, [s.currentProject, s.currentEnvironment, Keys(arg)[0]])
    else arg
  }

  /** A bare key resolves to the current project and that key, under the
      current config. */
  lemma BareKeyResolves(s: State, arg: ResourcePath)
    requires WellFormed(s) && !IsAbs(arg) && Depth(arg) == 1
    requires s.currentProject != Placeholder
    ensures var r := RealFlagPath(s, ExpandFlagArg(s, arg));
      && r.Success?
      && Config(r.value.path) == s.currentConfig
      && Depth(r.value.path) == 2
      && r.value.Project() == s.currentProject
      && r.value.Key() == arg
  {
    KeysReassemble(arg);
    var e := ExpandFlagArg(s, arg);
    NewAbsPathRoundTrip(s.currentConfig, [s.currentProject, Keys(arg)[0]]);
    RealFlagPathResolves(s, e);
  }

  /** The same for a flag-configuration argument. */
  lemma BareConfigKeyResolves(s: State, arg: ResourcePath)
    requires WellFormed(s) && !IsAbs(arg) && Depth(arg) == 1
    requires s.currentProject != Placeholder
    ensures var r := RealFlagConfigPath(s, ExpandFlagConfigArg(s, arg));
      && r.Success?
      && Config(r.value.path) == s.currentConfig
      && Depth(r.value.path) == 3
      && r.value.Project() == s.currentProject
      && r.value.Environment() == s.currentEnvironment
      && r.value.Key() == arg
  {
    KeysReassemble(arg);
    var e := ExpandFlagConfigArg(s, arg);
    NewAbsPathRoundTrip(s.currentConfig, [s.currentProject, s.currentEnvironment, Keys(arg)[0]]);
    RealFlagConfigPathResolves(s, e);
  }

  /** The path `getFlagArg` resolves: the argument at `pos`, expanded, or
      else "/project/chosen" for the flag the user picks from the current
      project (the interactive choice is the parameter `chosen`). */
  function FlagArg(s: State, args: seq<string>, pos: nat, chosen: string): (e: ResourcePath)
    ensures |args| > pos ==> e == ExpandFlagArg(s, args[pos])
    ensures |args| <= pos && WellFormed(s) && ValidKey(chosen) ==>
      Config(e) == s.currentConfig && Keys(e) == [s.currentProject, chosen]
  {
    SessionPathReadsBack(s, [chosen]);
    if |args| > pos then ExpandFlagArg(s, args[pos])
    else NewAbsPath(s.currentConfig, [s.currentProject, chosen])
  }

  /** `getFlagConfigArg` as written: without an argument it builds the same
      two-key path as `getFlagArg`, which has no environment. */
  function FlagConfigArgAsWritten(s: State, args: seq<string>, pos: nat, chosen: string): (e: ResourcePath)
    ensures |args| > pos ==> e == ExpandFlagConfigArg(s, args[pos])
    ensures |args| <= pos && WellFormed(s) && ValidKey(chosen) ==>
      Config(e) == s.currentConfig && Keys(e) == [s.currentProject, chosen]
  {
    SessionPathReadsBack(s, [chosen]);
    if |args| > pos then ExpandFlagConfigArg(s, args[pos])
    else NewAbsPath(s.currentConfig, [s.currentProject, chosen])
  }

  /** `getFlagConfigArg` corrected: the picked flag is placed under the
      current project and environment, like an expanded bare key. */
  function FlagConfigArg(s: State, args: seq<string>, pos: nat, chosen: string): (e: ResourcePath)
    ensures |args| > pos ==> e == ExpandFlagConfigArg(s, args[pos])
    ensures |args| <= pos && WellFormed(s) && ValidKey(chosen) ==>
      Config(e) == s.currentConfig && Keys(e) == [s.currentProject, s.currentEnvironment, chosen]
  {
    SessionPathReadsBack(s, [s.currentEnvironment, chosen]);
    assert [s.currentProject] + [s.currentEnvironment, chosen] == [s.currentProject, s.currentEnvironment, chosen];
    if |args| > pos then ExpandFlagConfigArg(s, args[pos])
    else NewAbsPath(s.currentConfig, [s.currentProject, s.currentEnvironment, chosen])
  }

  /** A picked flag resolves to the current project and that flag. */
  lemma ChosenFlagResolves(s: State, args: seq<string>, pos: nat, chosen: string)
    requires WellFormed(s) && |args| <= pos && ValidKey(chosen)
    requires s.currentProject != Placeholder
    ensures var r := RealFlagPath(s, FlagArg(s, args, pos, chosen));
      && r.Success?
      && Depth(r.value.path) == 2
      && Config(r.value.path) == s.currentConfig
      && r.value.Project() == s.currentProject
      && r.value.Key() == chosen
  {
    var e := FlagArg(s, args, pos, chosen);
    NewAbsPathRoundTrip(s.currentConfig, [s.currentProject, chosen]);
    RealFlagPathResolves(s, e);
  }

  /** As written, a picked flag is always refused by `realFlagConfigPath`:
      the path has two keys where three are required. */
  lemma ChosenFlagConfigRejected(s: State, args: seq<string>, pos: nat, chosen: string)
    requires WellFormed(s) && |args| <= pos && ValidKey(chosen)
    ensures RealFlagConfigPath(s, FlagConfigArgAsWritten(s, args, pos, chosen)) == Failure("invalid path")
  {
    NewAbsPathRoundTrip(s.currentConfig, [s.currentProject, chosen]);
  }

  /** Corrected, a picked flag resolves to the current project and
      environment and that flag. */
  lemma ChosenFlagConfigResolves(s: State, args: seq<string>, pos: nat, chosen: string)
    requires WellFormed(s) && |args| <= pos && ValidKey(chosen)
    requires s.currentProject != Placeholder
    ensures var r := RealFlagConfigPath(s, FlagConfigArg(s, args, pos, chosen));
      && r.Success?
      && Depth(r.value.path) == 3
      && Config(r.value.path) == s.currentConfig
      && r.value.Project() == s.currentProject
      && r.value.Environment() == s.currentEnvironment
      && r.value.Key() == chosen
  {
    var e := FlagConfigArg(s, args, pos, chosen);
    NewAbsPathRoundTrip(s.currentConfig, [s.currentProject, s.currentEnvironment, chosen]);
    RealFlagConfigPathResolves(s, e);
  }
}
