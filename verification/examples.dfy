/** The repository's own test vectors, stated as lemmas over the model:
    parsing of resource paths, `ReplaceDefaults` and `GetCompletions`.
    A lister or default-path source that the tests guard with an
    expectation on its argument returns a failure on any other argument,
    so each lemma also shows that the expected argument is the one used. */
module Examples {
  import opened Wrappers
  import opened Strings
  import opened Sorting
  import opened Paths
  import opened Completion

  // ---------------------------------------------------------------------
  // Parsing

  // The parse table of the path tests: config, keys and absoluteness of
  // each path.

  lemma ParseEmpty()
    ensures Config("") == None && Keys("") == [""] && !IsAbs("")
  {
  }

  lemma ParseRoot()
    ensures Config("/") == None && Keys("/") == [] && IsAbs("/")
  {
  }

  lemma ParseRelative()
    ensures Config("flagA") == None && Keys("flagA") == ["flagA"] && !IsAbs("flagA")
  {
    BareKeyParse("flagA");
  }

  /** A separator-free text is a relative path with itself as its one key. */
  lemma BareKeyParse(k: ResourcePath)
    requires Separator !in k
    ensures Config(k) == None && Keys(k) == [k] && !IsAbs(k)
  {
    SplitWithoutSeparator(k, Separator);
  }

  lemma ParseAbsolute()
    ensures Config("/flagA") == None && Keys("/flagA") == ["flagA"] && IsAbs("/flagA")
  {
    assert "/flagA" == NewAbsPath(None, ["flagA"]);
    NewAbsPathRoundTrip(None, ["flagA"]);
  }

  lemma ParseQualified()
    ensures Config("//configA/flagA") == Some("configA")
    ensures Keys("//configA/flagA") == ["flagA"] && IsAbs("//configA/flagA")
  {
    assert "//configA/flagA" == NewAbsPath(Some("configA"), ["flagA"]);
    NewAbsPathRoundTrip(Some("configA"), ["flagA"]);
  }

  lemma ParseEmptyConfig()
    ensures Config("///") == Some("") && Keys("///") == [""] && IsAbs("///")
  {
    assert "///" == NewAbsPath(Some(""), [""]);
    NewAbsPathRoundTrip(Some(""), [""]);
  }

  /** Building a path without a config from an empty first key gives text
      that reads back with the second key as its config. */
  lemma EmptyFirstKeyReadsAsConfig()
    ensures NewAbsPath(None, ["", "env"]) == "//env"
    ensures Config(NewAbsPath(None, ["", "env"])) == Some("env")
  {
    var p := NewAbsPath(None, ["", "env"]);
    assert p == "//env";
    var v := Config(p).value;
    assert HasPrefix(p, "//" + v);
    assert |v| <= 3;
    assert v == p[2..5];
    assert p[2..5] == "env";
  }

  // ---------------------------------------------------------------------
  // ReplaceDefaults

  function FixedSource(d: ResourcePath): DefaultPathSource
  {
    k => Success(d)
  }

  /** "/a" as a built path. */
  lemma OneKeyPath(a: string)
    ensures NewAbsPath(None, [a]) == "/" + a
  {
  }

  /** "/a/b" as a built path. */
  lemma PlainPaths(a: string, b: string)
    ensures NewAbsPath(None, [a, b]) == "/" + a + "/" + b
  {
    assert [a, b][1..] == [b];
    assert Join([b], Separator) == b;
  }

  /** Rebuildable two-key paths without a config. */
  predicate PlainKeys(ks: seq<string>)
  {
    Rebuildable(None, ks)
  }

  /** A leading placeholder below the depth takes the default key; the
      key after it is kept. */
  lemma ReplaceLeading(p: ResourcePath, d: ResourcePath, keys: seq<string>, defaultKeys: seq<string>, depth: int)
    requires PlainKeys(keys) && PlainKeys(defaultKeys)
    requires p == NewAbsPath(None, keys) && d == NewAbsPath(None, defaultKeys)
    requires keys[0] == Placeholder && depth >= 1 && |defaultKeys| >= 1
    requires |keys| == 1 || depth == 1 || keys[1] != Placeholder
    ensures ReplaceDefaults(p, FixedSource(d), depth) == Success(NewAbsPath(None, [defaultKeys[0]] + keys[1..]))
  {
    NewAbsPathRoundTrip(None, keys);
    NewAbsPathRoundTrip(None, defaultKeys);
    ReplaceDefaultsClosedForm(p, FixedSource(d), depth);
    var limit := Min(depth, |defaultKeys|);
    assert PlaceholderEnd(keys, 1, limit) == 1;
    assert PlaceholderEnd(keys, 0, limit) == 1;
    assert defaultKeys[..1] == [defaultKeys[0]];
  }

  /** The default path of the replacement table. */
  lemma DefaultProjEnv(d: ResourcePath)
    requires d == "/default-proj/default-env"
    ensures d == NewAbsPath(None, ["default-proj", "default-env"])
  {
    PlainPaths("default-proj", "default-env");
    assert "/" + "default-proj" + "/" + "default-env" == d;
  }

  /** The replacement table of the tests: leading placeholders up to the
      depth take the default keys; one after a named key stays. */
  lemma ReplaceDefaultsFirstKey()
    ensures ReplaceDefaults("/.../default-env", FixedSource("/default-proj/default-env"), 2)
      == Success("/default-proj/default-env")
  {
    var p: ResourcePath := "/.../default-env";
    var d: ResourcePath := "/default-proj/default-env";
    assert p == NewAbsPath(None, [Placeholder, "default-env"]) by {
      PlainPaths(Placeholder, "default-env");
    }
    DefaultProjEnv(d);
    FirstKeyReplaced(p, d);
  }

  lemma FirstKeyReplaced(p: ResourcePath, d: ResourcePath)
    requires p == NewAbsPath(None, [Placeholder, "default-env"])
    requires d == NewAbsPath(None, ["default-proj", "default-env"])
    ensures ReplaceDefaults(p, FixedSource(d), 2) == Success(d)
  {
    ReplaceLeading(p, d, [Placeholder, "default-env"], ["default-proj", "default-env"], 2);
    assert ["default-proj"] + [Placeholder, "default-env"][1..] == ["default-proj", "default-env"];
  }

  lemma ReplaceDefaultsStopsAtNamedKey()
    ensures ReplaceDefaults("/default-proj/...", FixedSource("/default-proj/default-env"), 2)
      == Success("/default-proj/...")
  {
    var p: ResourcePath := "/default-proj/...";
    assert p == NewAbsPath(None, ["default-proj", Placeholder]) by {
      PlainPaths("default-proj", Placeholder);
    }
    NamedFirstKeyKept(p, FixedSource("/default-proj/default-env"), ["default-proj", Placeholder], 2);
  }

  /** A path whose first key is named is left alone. */
  lemma NamedFirstKeyKept(p: ResourcePath, source: DefaultPathSource, keys: seq<string>, depth: int)
    requires PlainKeys(keys) && p == NewAbsPath(None, keys) && keys[0] != Placeholder
    ensures ReplaceDefaults(p, source, depth) == Success(p)
  {
    NewAbsPathRoundTrip(None, keys);
  }

  lemma ReplaceDefaultsUpToDepth()
    ensures ReplaceDefaults("/...", FixedSource("/default-proj/default-env"), 1) == Success("/default-proj")
  {
    var p: ResourcePath := "/...";
    var d: ResourcePath := "/default-proj/default-env";
    assert p == NewAbsPath(None, [Placeholder]) by {
      OneKeyPath(Placeholder);
    }
    DefaultProjEnv(d);
    assert NewAbsPath(None, ["default-proj"]) == "/default-proj" by {
      OneKeyPath("default-proj");
    }
    OnlyFirstKeyReplaced(p, d);
  }

  lemma OnlyFirstKeyReplaced(p: ResourcePath, d: ResourcePath)
    requires p == NewAbsPath(None, [Placeholder])
    requires d == NewAbsPath(None, ["default-proj", "default-env"])
    ensures ReplaceDefaults(p, FixedSource(d), 1) == Success(NewAbsPath(None, ["default-proj"]))
  {
    ReplaceLeading(p, d, [Placeholder], ["default-proj", "default-env"], 1);
    assert ["default-proj"] + [Placeholder][1..] == ["default-proj"];
  }

  // ---------------------------------------------------------------------
  // GetCompletions

  /** A lister that expects one parent and fails on any other. */
  function ExpectingLister(expected: ResourcePath, options: seq<string>): Lister
  {
    parent => if parent == expected then Success(options) else Failure("unexpected parent")
  }

  /** A default-path source that expects one config key. */
  function ExpectingSource(expected: Option<string>, d: ResourcePath): DefaultPathSource
  {
    k => if k == expected then Success(d) else Failure("unexpected config key")
  }

  /** Completions known up to order are, once sorted, exactly `expected`. */
  lemma CompletionsAre(r: Result<seq<string>, string>, expected: seq<string>)
    requires r.Success? && Sorted(r.value)
    requires Sorted(expected) && multiset(r.value) == multiset(expected)
    ensures r == Success(expected)
  {
    SortedUnique(r.value, expected);
  }

  /** Relative completion under the default path: the lister's options
      and "/". */
  lemma RelativeExample(d: ResourcePath)
    requires d == "/defaultProj/defaultEnv"
    ensures var c := Completer(FixedSource(d), None, [None, Some(ExpectingLister(d, ["flagA"]))]);
      GetCompletions(c, "") == Success(["/", "flagA"])
  {
    var c := Completer(FixedSource(d), None, [None, Some(ExpectingLister(d, ["flagA"]))]);
    RelativeCompletions(c, "");
    RelativeFlags();
    CompletionsAre(GetCompletions(c, ""), ["/", "flagA"]);
  }

  lemma RelativeFlags()
    ensures Sorted(["/", "flagA"])
    ensures multiset(["flagA"]) + multiset{"/"} == multiset(["/", "flagA"])
  {
  }

  /** The results are sorted. */
  lemma SortedExample(d: ResourcePath)
    requires d == "/defaultProj/defaultEnv"
    ensures var c := Completer(FixedSource(d), None,
        [None, None, Some(ExpectingLister(d, ["flagB", "flagC", "flagA"]))]);
      GetCompletions(c, "") == Success(["/", "flagA", "flagB", "flagC"])
  {
    var c := Completer(FixedSource(d), None, [None, None, Some(ExpectingLister(d, ["flagB", "flagC", "flagA"]))]);
    RelativeCompletions(c, "");
    SortedFlags();
    CompletionsAre(GetCompletions(c, ""), ["/", "flagA", "flagB", "flagC"]);
  }

  lemma SortedFlags()
    ensures Sorted(["/", "flagA", "flagB", "flagC"])
    ensures multiset(["flagB", "flagC", "flagA"]) + multiset{"/"} == multiset(["/", "flagA", "flagB", "flagC"])
  {
    FlagsInOrder();
  }

  lemma FlagsInOrder()
    ensures Sorted(["/", "flagA", "flagB", "flagC"])
  {
    assert LexLe("/", "flagA");
    assert LexLe("flagA", "flagB");
    assert LexLe("flagB", "flagC");
    LexLeTransitive("/", "flagA", "flagB");
    LexLeTransitive("flagA", "flagB", "flagC");
    LexLeTransitive("/", "flagB", "flagC");
  }

  lemma DecorateOne(prefix: string, x: string, suffix: string)
    ensures Decorate(prefix, [x], suffix) == [prefix + x + suffix]
  {
    assert Decorate(prefix, [x], suffix)[0] == prefix + x + suffix;
  }

  /** The default path of the completion tests is two keys deep. */
  lemma DefaultTwoDeep(d: ResourcePath)
    requires d == "/defaultProj/defaultEnv"
    ensures Config(d) == None && Keys(d) == ["defaultProj", "defaultEnv"] && Depth(d) == 2
  {
    assert d == NewAbsPath(None, ["defaultProj", "defaultEnv"]) by {
      PlainPaths("defaultProj", "defaultEnv");
    }
    NewAbsPathRoundTrip(None, ["defaultProj", "defaultEnv"]);
  }

  lemma RootFacts()
    ensures IsAbs("/") && Config("/") == None && Keys("/") == [] && TrueDepth("/") == 0
    ensures OriginalParent("/") == "/" && !IsConfigLevel("/")
  {
  }

  /** What "/" completes to, for a chain whose first lister succeeds on
      "/" and a default path as deep as the chain. */
  lemma RootCompletions(c: Completer, d: ResourcePath, options: seq<string>)
    requires |c.listers| >= 1 && c.listers[0].Some? && c.listers[0].value("/") == Success(options)
    requires c.defaultPathSource(None) == Success(d) && Depth(d) >= |c.listers|
    ensures var suffix := if |c.listers| > 1 then "/" else "";
      && Callable(c, "/")
      && GetCompletions(c, "/").Success?
      && multiset(GetCompletions(c, "/").value)
         == multiset(Decorate("/", options, suffix)) + multiset{"/" + Placeholder + suffix} + multiset{"//"}
  {
    RootFacts();
    assert ResolveParent(c, "/") == Success("/");
    AbsoluteCompletions(c, "/");
  }

  /** "/" lists the projects, offers "..." (the default path is as deep as
      the chain) and "//"; with a single lister there is no trailing "/".
      Any source that gives the default path for no config will do. */
  lemma RootExample(source: DefaultPathSource, d: ResourcePath)
    requires d == "/defaultProj/defaultEnv" && source(None) == Success(d)
    ensures var c := Completer(source, None, [Some(ExpectingLister("/", ["projA"]))]);
      GetCompletions(c, "/") == Success(["/...", "//", "/projA"])
  {
    var c := Completer(source, None, [Some(ExpectingLister("/", ["projA"]))]);
    DefaultTwoDeep(d);
    RootCompletions(c, d, ["projA"]);
    DecorateOne("/", "projA", "");
    RootResults("", "/...", "/projA");
    CompletionsAre(GetCompletions(c, "/"), ["/...", "//", "/projA"]);
  }

  /** With a deeper lister after it, every suggestion but "//" ends in "/". */
  lemma RootSuffixExample(source: DefaultPathSource, d: ResourcePath)
    requires d == "/defaultProj/defaultEnv" && source(None) == Success(d)
    ensures var c := Completer(source, None, [Some(ExpectingLister("/", ["projA"])), None]);
      GetCompletions(c, "/") == Success(["/.../", "//", "/projA/"])
  {
    var c := Completer(source, None, [Some(ExpectingLister("/", ["projA"])), None]);
    DefaultTwoDeep(d);
    RootCompletions(c, d, ["projA"]);
    DecorateOne("/", "projA", "/");
    RootResults("/", "/.../", "/projA/");
    CompletionsAre(GetCompletions(c, "/"), ["/.../", "//", "/projA/"]);
  }

  /** The expected root completions, with or without the "/" suffix, are
      sorted and are the decorated option and extras. */
  lemma RootResults(suffix: string, dots: string, proj: string)
    requires suffix == "" || suffix == "/"
    requires dots == "/..." + suffix && proj == "/projA" + suffix
    ensures Sorted([dots, "//", proj])
    ensures multiset(["/" + "projA" + suffix]) + multiset{"/" + Placeholder + suffix} + multiset{"//"}
      == multiset([dots, "//", proj])
  {
    assert "/" + Placeholder + suffix == dots;
    assert "/" + "projA" + suffix == proj;
  }

  /** Completions below a parent for which "..." is not offered: the
      options under the original parent and "/". */
  lemma PlainCompletions(c: Completer, arg: ResourcePath, parent: ResourcePath, options: seq<string>)
    requires IsAbs(arg) && !IsConfigLevel(arg) && arg != "/"
    requires ResolveParent(c, arg) == Success(parent)
    requires c.defaultPathSource(Config(arg)).Success?
    requires TrueDepth(parent) < |c.listers| && c.listers[TrueDepth(parent)].Some?
    requires c.listers[TrueDepth(parent)].value(parent) == Success(options)
    requires !AllPlaceholders(Keys(parent)) || |c.listers| > Depth(c.defaultPathSource(Config(arg)).value)
    requires Depth(OriginalParent(arg)) >= 1
    ensures var suffix := if |c.listers| > TrueDepth(parent) + 1 then "/" else "";
      && Callable(c, arg)
      && GetCompletions(c, arg).Success?
      && multiset(GetCompletions(c, arg).value) == multiset(Decorate(OriginalParent(arg) + "/", options, suffix))
  {
    AbsoluteCompletions(c, arg);
  }

  lemma ProjectPathFacts()
    ensures IsAbs("/projA/") && Config("/projA/") == None && Keys("/projA/") == ["projA", ""]
    ensures OriginalParent("/projA/") == "/projA"
    ensures Config("/projA") == None && Keys("/projA") == ["projA"] && TrueDepth("/projA") == 1
  {
    PlainPaths("projA", "");
    assert "/" + "projA" + "/" + "" == "/projA/";
    NewAbsPathRoundTrip(None, ["projA", ""]);
    assert ["projA", ""][..1] == ["projA"];
    OneKeyPath("projA");
    NewAbsPathRoundTrip(None, ["projA"]);
  }

  /** "/projA/" lists the environments of projA under the prefix
      "/projA/"; "..." is not offered below a named project. */
  lemma ProjectLevelExample(d: ResourcePath)
    requires d == "/defaultProj/defaultEnv"
    ensures var c := Completer(ExpectingSource(None, d), None,
        [None, Some(ExpectingLister("/projA", ["envB"]))]);
      Callable(c, "/projA/") && GetCompletions(c, "/projA/") == Success(["/projA/envB"])
  {
    var c := Completer(ExpectingSource(None, d), None, [None, Some(ExpectingLister("/projA", ["envB"]))]);
    ProjectPathFacts();
    DefaultTwoDeep(d);
    assert ResolveParent(c, "/projA/") == Success("/projA");
    ProjectLevelResult();
    PlainCompletions(c, "/projA/", "/projA", ["envB"]);
    DecorateOne("/projA" + "/", "envB", "");
    ProjectLevelResult();
    CompletionsAre(GetCompletions(c, "/projA/"), ["/projA/envB"]);
  }

  lemma ProjectLevelResult()
    ensures !AllPlaceholders(["projA"])
    ensures multiset(["/projA" + "/" + "envB" + ""]) == multiset(["/projA/envB"])
  {
    assert "/projA" + "/" + "envB" + "" == "/projA/envB";
    assert |["projA"][0]| != |Placeholder|;
  }

  /** "a/b/c" as joined keys. */
  lemma ThreeKeys(a: string, b: string, c: string)
    ensures Join([a, b, c], Separator) == a + "/" + b + "/" + c
  {
    assert [a, b, c][1..] == [b, c];
    assert [b, c][1..] == [c];
    assert Join([c], Separator) == c;
    assert Join([b, c], Separator) == b + [Separator] + c;
  }

  lemma ConfigArgFacts(arg: ResourcePath, original: ResourcePath)
    requires arg == "//configA/.../.../" && original == "//configA/.../..."
    ensures IsAbs(arg) && Config(arg) == Some("configA") && Keys(arg) == [Placeholder, Placeholder, ""]
    ensures !IsConfigLevel(arg) && arg != "/"
    ensures OriginalParent(arg) == original
    ensures Config(original) == Some("configA") && Keys(original) == [Placeholder, Placeholder]
  {
    ConfigArgParse(arg);
    ConfigOriginalParse(original);
    assert [Placeholder, Placeholder, ""][..2] == [Placeholder, Placeholder];
  }

  lemma ConfigArgParse(arg: ResourcePath)
    requires arg == "//configA/.../.../"
    ensures Config(arg) == Some("configA") && Keys(arg) == [Placeholder, Placeholder, ""]
  {
    assert arg == NewAbsPath(Some("configA"), [Placeholder, Placeholder, ""]) by {
      ThreeKeys(Placeholder, Placeholder, "");
      assert "//configA/" + (Placeholder + "/" + Placeholder + "/" + "") == arg;
    }
    NewAbsPathRoundTrip(Some("configA"), [Placeholder, Placeholder, ""]);
  }

  lemma ConfigOriginalParse(original: ResourcePath)
    requires original == "//configA/.../..."
    ensures original == NewAbsPath(Some("configA"), [Placeholder, Placeholder])
    ensures Config(original) == Some("configA") && Keys(original) == [Placeholder, Placeholder]
  {
    assert original == NewAbsPath(Some("configA"), [Placeholder, Placeholder]) by {
      PlainJoin(Placeholder, Placeholder);
      assert "//configA/" + (Placeholder + "/" + Placeholder) == original;
    }
    NewAbsPathRoundTrip(Some("configA"), [Placeholder, Placeholder]);
  }

  /** "a/b" as joined keys. */
  lemma PlainJoin(a: string, b: string)
    ensures Join([a, b], Separator) == a + "/" + b
  {
    assert [a, b][1..] == [b];
  }

  lemma ConfigParentFacts(parent: ResourcePath)
    requires parent == "//configA/defaultProj/defaultEnv"
    ensures parent == NewAbsPath(Some("configA"), ["defaultProj", "defaultEnv"])
    ensures Keys(parent) == ["defaultProj", "defaultEnv"] && TrueDepth(parent) == 2
  {
    assert parent == NewAbsPath(Some("configA"), ["defaultProj", "defaultEnv"]) by {
      PlainJoin("defaultProj", "defaultEnv");
    }
    NewAbsPathRoundTrip(Some("configA"), ["defaultProj", "defaultEnv"]);
  }

  /** Both leading placeholders of the original parent take the default
      keys of the config's default path. */
  lemma ConfigParentResolves(c: Completer, arg: ResourcePath, original: ResourcePath, parent: ResourcePath, d: ResourcePath)
    requires Config(original) == Some("configA") && Keys(original) == [Placeholder, Placeholder]
    requires IsAbs(arg) && Depth(arg) == 3 && OriginalParent(arg) == original
    requires c.defaultPathSource(Some("configA")) == Success(d) && Keys(d) == ["defaultProj", "defaultEnv"]
    requires |c.listers| == 3
    requires parent == NewAbsPath(Some("configA"), ["defaultProj", "defaultEnv"])
    ensures ResolveParent(c, arg) == Success(parent)
  {
    ReplaceDefaultsClosedForm(original, c.defaultPathSource, 3);
    assert PlaceholderEnd([Placeholder, Placeholder], 0, 2) == 2;
    assert Keys(d)[..2] + Keys(original)[2..] == ["defaultProj", "defaultEnv"];
  }

  /** Under a config, "..." keys are resolved through that config's
      default path for the lister, while the suggestion keeps them as
      typed. */
  lemma ConfigDefaultsExample(arg: ResourcePath, original: ResourcePath, parent: ResourcePath, d: ResourcePath)
    requires arg == "//configA/.../.../" && original == "//configA/.../..."
    requires parent == "//configA/defaultProj/defaultEnv" && d == "/defaultProj/defaultEnv"
    ensures var c := Completer(ExpectingSource(Some("configA"), d), None,
        [None, None, Some(ExpectingLister(parent, ["flagA"]))]);
      Callable(c, arg) && GetCompletions(c, arg) == Success(["//configA/.../.../flagA"])
  {
    var c := Completer(ExpectingSource(Some("configA"), d), None, [None, None, Some(ExpectingLister(parent, ["flagA"]))]);
    ConfigArgFacts(arg, original);
    ConfigParentFacts(parent);
    DefaultTwoDeep(d);
    ConfigParentResolves(c, arg, original, parent, d);
    PlainCompletions(c, arg, parent, ["flagA"]);
    DecorateOne(original + "/", "flagA", "");
    ConfigDefaultsResult(original);
    CompletionsAre(GetCompletions(c, arg), ["//configA/.../.../flagA"]);
  }

  lemma ConfigDefaultsResult(original: ResourcePath)
    requires original == "//configA/.../..."
    ensures multiset([original + "/" + "flagA" + ""]) == multiset(["//configA/.../.../flagA"])
  {
    assert original + "/" + "flagA" + "" == "//configA/.../.../flagA";
  }

  lemma ConfigListFacts()
    ensures IsConfigLevel("//") && Config("//") == Some("")
    ensures seq(1, i requires 0 <= i < 1 => "//" + ["my-config"][i] + "/") == ["//my-config/"]
  {
    assert Split("//", Separator) == ["", "", ""];
    assert "//" + ["my-config"][0] + "/" == "//my-config/";
  }

  /** "//" lists the configs, each as "//name/". */
  lemma ConfigListExample(source: DefaultPathSource)
    ensures var c := Completer(source, Some(ExpectingLister("//", ["my-config"])), []);
      Callable(c, "//") && GetCompletions(c, "//") == Success(["//my-config/"])
  {
    var c := Completer(source, Some(ExpectingLister("//", ["my-config"])), []);
    ConfigListFacts();
    ConfigLevelCompletions(c, "//");
    CompletionsAre(GetCompletions(c, "//"), ["//my-config/"]);
  }

  // ---------------------------------------------------------------------
  // Directly under a config

  lemma ConfigRootFacts(arg: ResourcePath, root: ResourcePath, d: ResourcePath)
    requires arg == "//cfg/p" && root == "//cfg/" && d == "//cfg/defaultProj/defaultEnv"
    ensures IsAbs(arg) && Config(arg) == Some("cfg") && Keys(arg) == ["p"] && !IsConfigLevel(arg)
    ensures arg != "/"
    ensures OriginalParent(arg) == root && Keys(root) == [""] && TrueDepth(root) == 0
    ensures Depth(d) == 2
  {
    ConfigRootArgFacts(arg);
    ConfigRootParentFacts(root);
    assert OriginalParent(arg) == NewAbsPath(Some("cfg"), []);
    ConfigDefaultFacts(d);
  }

  lemma ConfigRootArgFacts(arg: ResourcePath)
    requires arg == "//cfg/p"
    ensures IsAbs(arg) && Config(arg) == Some("cfg") && Keys(arg) == ["p"]
  {
    assert arg == NewAbsPath(Some("cfg"), ["p"]);
    NewAbsPathRoundTrip(Some("cfg"), ["p"]);
  }

  lemma ConfigRootParentFacts(root: ResourcePath)
    requires root == "//cfg/"
    ensures root == NewAbsPath(Some("cfg"), []) && Keys(root) == [""]
  {
    assert root == NewAbsPath(Some("cfg"), [""]);
    NewAbsPathRoundTrip(Some("cfg"), [""]);
  }

  lemma ConfigDefaultFacts(d: ResourcePath)
    requires d == "//cfg/defaultProj/defaultEnv"
    ensures Depth(d) == 2
  {
    PlainJoin("defaultProj", "defaultEnv");
    assert d == NewAbsPath(Some("cfg"), ["defaultProj", "defaultEnv"]);
    NewAbsPathRoundTrip(Some("cfg"), ["defaultProj", "defaultEnv"]);
  }

  /** The completer of a two-level chain typed one key below "//cfg/". */
  function ConfigRootCompleter(d: ResourcePath): Completer
  {
    Completer(ExpectingSource(Some("cfg"), d), None, [Some(ExpectingLister("//cfg/", ["projA"])), None])
  }

  /** As written, "//cfg/p" suggests "//cfg//projA/", whose first key is
      empty, and no "...". */
  lemma ConfigRootAsWritten(arg: ResourcePath, root: ResourcePath, d: ResourcePath)
    requires arg == "//cfg/p" && root == "//cfg/" && d == "//cfg/defaultProj/defaultEnv"
    ensures Callable(ConfigRootCompleter(d), arg)
    ensures GetCompletions(ConfigRootCompleter(d), arg) == Success(["//cfg//projA/"])
    ensures ParentPrefix(arg, AsWritten) == "//cfg//"
  {
    var c := ConfigRootCompleter(d);
    ConfigRootFacts(arg, root, d);
    assert ResolveParent(c, arg) == Success(root);
    assert !AllPlaceholders([""]);
    PlainCompletions(c, arg, root, ["projA"]);
    DecorateOne(root + "/", "projA", "/");
    ConfigRootAsWrittenResult(root);
    CompletionsAre(GetCompletions(c, arg), ["//cfg//projA/"]);
  }

  lemma ConfigRootAsWrittenResult(root: ResourcePath)
    requires root == "//cfg/"
    ensures multiset([root + "/" + "projA" + "/"]) == multiset(["//cfg//projA/"])
    ensures root + "/" == "//cfg//"
  {
    assert root + "/" + "projA" + "/" == "//cfg//projA/";
  }

  /** The as-written suggestion reads back with an empty project key. */
  lemma ConfigRootSuggestionKeys(suggestion: ResourcePath)
    requires suggestion == "//cfg//projA/"
    ensures Config(suggestion) == Some("cfg") && Keys(suggestion) == ["", "projA", ""]
  {
    ThreeKeys("", "projA", "");
    assert suggestion == NewAbsPath(Some("cfg"), ["", "projA", ""]);
    NewAbsPathRoundTrip(Some("cfg"), ["", "projA", ""]);
  }

  /** Corrected, "//cfg/p" suggests "//cfg/projA/" and "//cfg/.../", as
      "/p" suggests "/projA/" and "/.../". */
  lemma ConfigRootCorrected(arg: ResourcePath, root: ResourcePath, d: ResourcePath)
    requires arg == "//cfg/p" && root == "//cfg/" && d == "//cfg/defaultProj/defaultEnv"
    ensures Callable(ConfigRootCompleter(d), arg)
    ensures GetCompletionsCorrected(ConfigRootCompleter(d), arg) == Success(["//cfg/.../", "//cfg/projA/"])
  {
    var c := ConfigRootCompleter(d);
    ConfigRootFacts(arg, root, d);
    assert ResolveParent(c, arg) == Success(root);
    PlanAbsolute(c, arg, Corrected);
    assert ParentPrefix(arg, Corrected) == root;
    assert ParentIsDefault(root, Corrected);
    assert [Placeholder + "/"] + [] == [Placeholder + "/"];
    assert Plan(c, arg, Corrected) == Success(Setup(root, Level(0), root, "/", [Placeholder + "/"]));
    CompleteContents(c, arg, Corrected);
    DecorateOne(root, "projA", "/");
    DecorateOne(root, Placeholder + "/", "");
    ConfigRootCorrectedResult(root);
    CompletionsAre(GetCompletionsCorrected(c, arg), ["//cfg/.../", "//cfg/projA/"]);
  }

  lemma ConfigRootCorrectedResult(root: ResourcePath)
    requires root == "//cfg/"
    ensures Sorted(["//cfg/.../", "//cfg/projA/"])
    ensures multiset([root + "projA" + "/"]) + multiset([root + (Placeholder + "/") + ""])
      == multiset(["//cfg/.../", "//cfg/projA/"])
  {
    ConfigRootCorrectedSorted();
    ConfigRootCorrectedTexts(root);
  }

  lemma ConfigRootCorrectedSorted()
    ensures Sorted(["//cfg/.../", "//cfg/projA/"])
  {
  }

  lemma ConfigRootCorrectedTexts(root: ResourcePath)
    requires root == "//cfg/"
    ensures multiset([root + "projA" + "/"]) + multiset([root + (Placeholder + "/") + ""])
      == multiset(["//cfg/.../", "//cfg/projA/"])
  {
    assert root + "projA" + "/" == "//cfg/projA/";
    assert root + (Placeholder + "/") + "" == "//cfg/.../";
  }
}
