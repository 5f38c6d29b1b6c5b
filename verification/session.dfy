/** The shell's session state and `getDefaultPath`, the default-path source
    every completer and every flag command uses: the default project and
    environment of a named config, or of the current session when no
    config is named or current. */
module Session {
  import opened Wrappers
  import opened Paths
  import opened Completion

  /** One named entry of the configuration file. */
  datatype ConfigEntry = ConfigEntry(
    apiToken: string,
    server: string,
    defaultProject: string,
    defaultEnvironment: string)

  /** The package-level variables the source reads: the current config
      name (`nil` when none is selected), project and environment, and the
      loaded configuration file. */
  datatype State = State(
    currentConfig: Option<string>,
    currentProject: string,
    currentEnvironment: string,
    configFile: map<string, ConfigEntry>)

  /** The config a lookup uses: the one asked for, else the current one. */
  function ConfigFor(s: State, configKey: Option<string>): Option<string>
  {
    if configKey.None? then s.currentConfig else configKey
  }

  /** `getDefaultPath`: "/project/environment" (with "//config" in front
      when a config is asked for or current), taking the project and
      environment from that config's entry, or from the session when there
      is no config at all. A config missing from the file is an error. */
  function GetDefaultPath(s: State, configKey: Option<string>): (r: Result<ResourcePath, string>)
    ensures var key := ConfigFor(s, configKey);
      && (r.Failure? <==> key.Some? && key.value !in s.configFile)
      && (r.Failure? ==> r.error == "config not found")
      && (r.Success? ==> IsAbs(r.value))
  {
    var key := ConfigFor(s, configKey);
    if key.None? then
      Success(NewAbsPath(None, [s.currentProject, s.currentEnvironment]))
    else if key.value !in s.configFile then
      Failure("config not found")
    else
      var entry := s.configFile[key.value];
      Success(NewAbsPath(key, [entry.defaultProject, entry.defaultEnvironment]))
  }

  /** `getDefaultPath` as a default-path source. */
  function Source(s: State): DefaultPathSource
  {
    k => GetDefaultPath(s, k)
  }

  /** Names and keys as the service hands them out: no separators, and
      project keys are never empty. */
  predicate ValidKey(k: string)
  {
    Separator !in k
  }

  predicate WellFormed(s: State)
  {
    && (s.currentConfig.Some? ==> ValidKey(s.currentConfig.value))
    && ValidKey(s.currentProject) && s.currentProject != ""
    && ValidKey(s.currentEnvironment)
    && (forall name :: name in s.configFile ==>
          && ValidKey(name)
          && ValidKey(s.configFile[name].defaultProject)
          && s.configFile[name].defaultProject != ""
          && ValidKey(s.configFile[name].defaultEnvironment))
  }

  /** The project and environment a default path is built from. */
  function DefaultKeys(s: State, configKey: Option<string>): seq<string>
    requires GetDefaultPath(s, configKey).Success?
  {
    var key := ConfigFor(s, configKey);
    if key.None? then [s.currentProject, s.currentEnvironment]
    else [s.configFile[key.value].defaultProject, s.configFile[key.value].defaultEnvironment]
  }

  /** A default path reads back as the config it was looked up under and
      exactly two keys, the project and the environment. */
  lemma DefaultPathKeys(s: State, configKey: Option<string>)
    requires WellFormed(s)
    requires configKey.Some? ==> ValidKey(configKey.value)
    requires GetDefaultPath(s, configKey).Success?
    ensures var d := GetDefaultPath(s, configKey).value;
      && Config(d) == ConfigFor(s, configKey)
      && Keys(d) == DefaultKeys(s, configKey)
      && Depth(d) == 2
      && Keys(d)[0] != ""
  {
    NewAbsPathRoundTrip(ConfigFor(s, configKey), DefaultKeys(s, configKey));
  }

  /** The session's default paths can be spliced into any path. */
  lemma SourceFitsEverywhere(s: State, p: ResourcePath)
    requires WellFormed(s)
    ensures SourceFits(p, Source(s))
  {
    if GetDefaultPath(s, Config(p)).Success? {
      DefaultPathKeys(s, Config(p));
    }
  }
}
