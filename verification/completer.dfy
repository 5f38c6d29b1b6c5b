/** The completion engine: `ReplaceDefaults`, which substitutes leading
    "..." placeholders from a default path, and `GetCompletions`, which
    classifies a partly typed path, picks one lister by depth and returns
    sorted, decorated suggestions. Listers and the default-path source are
    function values supplied by the caller (in the source, the `ListerFunc`
    and `DefaultPathSourceFunc` adapters turn functions into these
    interfaces; here the functions are used directly). */
module Completion {
  import opened Wrappers
  import opened Strings
  import opened Sorting
  import opened Paths

  /** Lists the child names under a parent path. */
  type Lister = ResourcePath -> Result<seq<string>, string>

  /** Gives the default path for an optional config key. */
  type DefaultPathSource = Option<string> -> Result<ResourcePath, string>

  /** `NewCompleter(source, configLister, listers...)`; a `None` lister is
      a Go `nil` in the chain. */
  datatype Completer = Completer(
    defaultPathSource: DefaultPathSource,
    configLister: Option<Lister>,
    listers: seq<Option<Lister>>)

  // ---------------------------------------------------------------------
  // ReplaceDefaults

  /** The loop of `ReplaceDefaults` from position `pos` on. Each step
      re-reads the keys of the current path, stops at the first key that is
      not a placeholder or when the default path is too shallow, and
      otherwise rebuilds the path with the default key at `pos`. */
  function ReplaceFrom(p: ResourcePath, source: DefaultPathSource, depth: int, pos: nat)
    : (r: Result<ResourcePath, string>)
    ensures r.Failure? ==> exists k :: source(k) == Failure(r.error)
    decreases depth - pos
  {
    if pos >= depth || pos >= Depth(p) then Success(p)
    else
      var keys := Keys(p);
      if keys[pos] != Placeholder then Success(p)
      else
        var defaultPath :- source(Config(p));
        if pos >= Depth(defaultPath) then Success(p)
        else
          var newKeys := keys[..pos] + [Keys(defaultPath)[pos]] + keys[pos + 1..];
          ReplaceFrom(NewAbsPath(Config(p), newKeys), source, depth, pos + 1)
  }

  /** Substitutes leading placeholders of `p`, at positions below `depth`,
      by the keys of the default path for `p`'s config. A path that does
      not start with a placeholder comes back unchanged, and every error
      is one the source produced. */
  function ReplaceDefaults(p: ResourcePath, source: DefaultPathSource, depth: int)
    : (r: Result<ResourcePath, string>)
    ensures !StartsWithPlaceholder(p, depth) ==> r == Success(p)
    ensures r.Failure? ==> exists k :: source(k) == Failure(r.error)
  {
    ReplaceFrom(p, source, depth, 0)
  }

  /** The scan of `ReplaceDefaults` reaches a placeholder at position 0. */
  predicate StartsWithPlaceholder(p: ResourcePath, depth: int)
  {
    depth > 0 && Depth(p) > 0 && Keys(p)[0] == Placeholder
  }

  /** The end of the run of placeholders in `keys` that starts at `from`,
      cut off at `limit`. */
  function PlaceholderEnd(keys: seq<string>, from: nat, limit: int): (n: nat)
    requires from <= |keys|
    ensures from <= n <= |keys|
    ensures n > from ==> n <= limit
    ensures forall i :: from <= i < n ==> i < limit && keys[i] == Placeholder
    ensures n < |keys| && n < limit ==> keys[n] != Placeholder
    decreases |keys| - from
  {
    if from >= limit || from == |keys| || keys[from] != Placeholder then from
    else PlaceholderEnd(keys, from + 1, limit)
  }

  function Min(a: int, b: int): int
  {
    if a < b then a else b
  }

  /** Closed form of a successful substitution: the first `n` keys, where
      `n` counts the leading placeholders below `depth` and below the
      default path's depth, are taken from `defaultKeys`. */
  function Substituted(p: ResourcePath, defaultKeys: seq<string>, depth: int): ResourcePath
  {
    var n := PlaceholderEnd(Keys(p), 0, Min(depth, |defaultKeys|));
    if n == 0 then p else NewAbsPath(Config(p), defaultKeys[..n] + Keys(p)[n..])
  }

  /** The default path for `p`'s config, when there is one, can be spliced
      into `p` without the rebuilt text changing its config: without a
      config its first key is not empty. */
  predicate SourceFits(p: ResourcePath, source: DefaultPathSource)
  {
    (source(Config(p)).Success? && Config(p).None? && Depth(source(Config(p)).value) > 0)
      ==> Keys(source(Config(p)).value)[0] != ""
  }

  /** Splicing the first `m` default keys into the keys of a path keeps
      the result parseable, when the default keys fit the path's config. */
  lemma SpliceRebuildable(p: ResourcePath, d: ResourcePath, m: nat)
    requires 0 < m <= Depth(p) && m <= Depth(d)
    requires Config(p).None? ==> Keys(d)[0] != ""
    ensures Rebuildable(Config(p), Keys(d)[..m] + Keys(p)[m..])
  {
    var ks := Keys(d)[..m] + Keys(p)[m..];
    forall i | 0 <= i < |ks|
      ensures Separator !in ks[i]
    {
      if i < m { assert ks[i] == Keys(d)[i]; } else { assert ks[i] == Keys(p)[i]; }
    }
  }

  /** One substituting step of the loop. */
  lemma ReplaceFromStep(q: ResourcePath, source: DefaultPathSource, depth: int, pos: nat, d: ResourcePath)
    requires pos < depth && pos < Depth(q) && Keys(q)[pos] == Placeholder
    requires source(Config(q)) == Success(d) && pos < Depth(d)
    ensures ReplaceFrom(q, source, depth, pos) == ReplaceFrom(
      NewAbsPath(Config(q), Keys(q)[..pos] + [Keys(d)[pos]] + Keys(q)[pos + 1..]), source, depth, pos + 1)
  {
  }

  /** The loop stops without substituting. */
  lemma ReplaceFromStop(q: ResourcePath, source: DefaultPathSource, depth: int, pos: nat, d: ResourcePath)
    requires source(Config(q)) == Success(d)
    requires pos >= depth || pos >= Depth(q) || Keys(q)[pos] != Placeholder || pos >= Depth(d)
    ensures ReplaceFrom(q, source, depth, pos) == Success(q)
  {
  }

  /** The loop's result from position `pos` on: the default keys up to
      the end of the run of placeholders that starts at `pos`. */
  function ClosedFrom(p: ResourcePath, d: ResourcePath, depth: int, pos: nat): ResourcePath
    requires pos <= Depth(p) && pos <= Depth(d)
  {
    var n := PlaceholderEnd(Keys(p), pos, Min(depth, Depth(d)));
    if n == 0 then p else NewAbsPath(Config(p), Keys(d)[..n] + Keys(p)[n..])
  }

  /** Where the loop stops, the path reached is the closed form. */
  lemma ClosedFormAtStop(p: ResourcePath, q: ResourcePath, depth: int, pos: nat, d: ResourcePath)
    requires pos <= Depth(p) && pos <= Depth(d)
    requires Keys(q) == Keys(d)[..pos] + Keys(p)[pos..]
    requires pos == 0 ==> q == p
    requires pos > 0 ==> q == NewAbsPath(Config(p), Keys(q))
    requires pos >= depth || pos >= Depth(p) || Keys(p)[pos] != Placeholder || pos >= Depth(d)
    ensures q == ClosedFrom(p, d, depth, pos)
  {
    assert PlaceholderEnd(Keys(p), pos, Min(depth, Depth(d))) == pos;
  }

  /** Generalisation of the closed form to the loop state at `pos`: `q`
      has the default keys below `pos` and `p`'s keys from `pos` on. */
  lemma {:induction false} ReplaceFromClosedForm(
    p: ResourcePath, q: ResourcePath, source: DefaultPathSource, depth: int, pos: nat, d: ResourcePath)
    requires source(Config(p)) == Success(d)
    requires Config(p).None? && Depth(d) > 0 ==> Keys(d)[0] != ""
    requires pos <= Depth(p) && pos <= Depth(d)
    requires forall i :: 0 <= i < pos ==> i < depth && Keys(p)[i] == Placeholder
    requires Config(q) == Config(p)
    requires Keys(q) == Keys(d)[..pos] + Keys(p)[pos..]
    requires pos == 0 ==> q == p
    requires pos > 0 ==> q == NewAbsPath(Config(p), Keys(q))
    ensures ReplaceFrom(q, source, depth, pos) == Success(ClosedFrom(p, d, depth, pos))
    decreases depth - pos, 1
  {
    if pos >= depth || pos >= Depth(q) || Keys(q)[pos] != Placeholder || pos >= Depth(d) {
      assert pos < Depth(q) ==> Keys(q)[pos] == Keys(p)[pos];
      ReplaceFromStop(q, source, depth, pos, d);
      ClosedFormAtStop(p, q, depth, pos, d);
    } else {
      ReplaceFromClosedFormStep(p, q, source, depth, pos, d);
    }
  }

  lemma {:induction false} ReplaceFromClosedFormStep(
    p: ResourcePath, q: ResourcePath, source: DefaultPathSource, depth: int, pos: nat, d: ResourcePath)
    requires source(Config(p)) == Success(d)
    requires Config(p).None? && Depth(d) > 0 ==> Keys(d)[0] != ""
    requires pos <= Depth(p) && pos <= Depth(d)
    requires forall i :: 0 <= i < pos ==> i < depth && Keys(p)[i] == Placeholder
    requires Config(q) == Config(p)
    requires Keys(q) == Keys(d)[..pos] + Keys(p)[pos..]
    requires pos == 0 ==> q == p
    requires pos > 0 ==> q == NewAbsPath(Config(p), Keys(q))
    requires pos < depth && pos < Depth(p) && Keys(q)[pos] == Placeholder && pos < Depth(d)
    ensures ReplaceFrom(q, source, depth, pos) == Success(ClosedFrom(p, d, depth, pos))
    decreases depth - pos, 0
  {
    var keys := Keys(q);
    var newKeys := keys[..pos] + [Keys(d)[pos]] + keys[pos + 1..];
    var q' := NewAbsPath(Config(p), newKeys);
    ReplaceFromStep(q, source, depth, pos, d);
    StepKeepsClosedForm(p, q, depth, pos, d);
    ReplaceFromClosedForm(p, q', source, depth, pos + 1, d);
  }

  /** After a substituting step the loop state again has the default keys
      below the position and `p`'s keys from it on, and the run of
      placeholders ends where it did. */
  lemma StepKeepsClosedForm(p: ResourcePath, q: ResourcePath, depth: int, pos: nat, d: ResourcePath)
    requires pos < depth && pos < Depth(p) && pos < Depth(d)
    requires Config(p).None? ==> Keys(d)[0] != ""
    requires forall i :: 0 <= i < pos ==> i < depth && Keys(p)[i] == Placeholder
    requires Keys(q) == Keys(d)[..pos] + Keys(p)[pos..]
    requires Keys(q)[pos] == Placeholder
    ensures var newKeys := Keys(q)[..pos] + [Keys(d)[pos]] + Keys(q)[pos + 1..];
      var q' := NewAbsPath(Config(p), newKeys);
      && Config(q') == Config(p)
      && Keys(q') == newKeys == Keys(d)[..pos + 1] + Keys(p)[pos + 1..]
      && (forall i :: 0 <= i < pos + 1 ==> i < depth && Keys(p)[i] == Placeholder)
      && ClosedFrom(p, d, depth, pos) == ClosedFrom(p, d, depth, pos + 1)
  {
    var newKeys := Keys(q)[..pos] + [Keys(d)[pos]] + Keys(q)[pos + 1..];
    SpliceStep(Keys(q), Keys(d), Keys(p), pos);
    SpliceRebuildable(p, d, pos + 1);
    NewAbsPathRoundTrip(Config(p), newKeys);
  }

  /** Replacing the key at `pos` of a spliced list moves the splice point
      one further. */
  lemma SpliceStep(kq: seq<string>, kd: seq<string>, kp: seq<string>, pos: nat)
    requires pos < |kd| && pos < |kp|
    requires kq == kd[..pos] + kp[pos..]
    ensures kq[..pos] + [kd[pos]] + kq[pos + 1..] == kd[..pos + 1] + kp[pos + 1..]
  {
    assert kq[..pos] == kd[..pos];
    assert kq[pos + 1..] == kp[pos + 1..];
    assert kd[..pos + 1] == kd[..pos] + [kd[pos]];
  }

  /** `ReplaceDefaults` against its closed form: when the scan starts on a
      placeholder, it fails exactly with the source's error, and otherwise
      gives `Substituted`; when it does not, the path is unchanged. */
  lemma ReplaceDefaultsClosedForm(p: ResourcePath, source: DefaultPathSource, depth: int)
    requires SourceFits(p, source)
    ensures StartsWithPlaceholder(p, depth) && source(Config(p)).Failure? ==>
      ReplaceDefaults(p, source, depth) == Failure(source(Config(p)).error)
    ensures source(Config(p)).Success? ==>
      ReplaceDefaults(p, source, depth) == Success(Substituted(p, Keys(source(Config(p)).value), depth))
  {
    if source(Config(p)).Success? {
      var d := source(Config(p)).value;
      ReplaceFromClosedForm(p, p, source, depth, 0, d);
      assert ClosedFrom(p, d, depth, 0) == Substituted(p, Keys(d), depth);
    }
  }

  /** What a successful substitution does key by key: the config and the
      depth are kept, the leading placeholders (below `depth` and the
      default path's depth) take the default keys, and every other key is
      kept. */
  lemma ReplaceDefaultsKeys(p: ResourcePath, source: DefaultPathSource, depth: int)
    requires SourceFits(p, source)
    requires source(Config(p)).Success?
    ensures var r := ReplaceDefaults(p, source, depth);
      var d := source(Config(p)).value;
      var n := PlaceholderEnd(Keys(p), 0, Min(depth, Depth(d)));
      && r.Success?
      && Config(r.value) == Config(p)
      && Depth(r.value) == Depth(p)
      && (forall i :: 0 <= i < n ==> Keys(p)[i] == Placeholder && Keys(r.value)[i] == Keys(d)[i])
      && (forall i :: n <= i < Depth(p) ==> Keys(r.value)[i] == Keys(p)[i])
  {
    ReplaceDefaultsClosedForm(p, source, depth);
    SubstitutedKeys(p, source(Config(p)).value, depth);
  }

  /** The keys of the closed form. */
  lemma SubstitutedKeys(p: ResourcePath, d: ResourcePath, depth: int)
    requires Config(p).None? && Depth(d) > 0 ==> Keys(d)[0] != ""
    ensures var r := Substituted(p, Keys(d), depth);
      var n := PlaceholderEnd(Keys(p), 0, Min(depth, Depth(d)));
      && Config(r) == Config(p)
      && Depth(r) == Depth(p)
      && (forall i :: 0 <= i < n ==> Keys(p)[i] == Placeholder && Keys(r)[i] == Keys(d)[i])
      && (forall i :: n <= i < Depth(p) ==> Keys(r)[i] == Keys(p)[i])
  {
    var n := PlaceholderEnd(Keys(p), 0, Min(depth, Depth(d)));
    if n > 0 {
      var ks := Keys(d)[..n] + Keys(p)[n..];
      assert Config(Substituted(p, Keys(d), depth)) == Config(p) && Keys(Substituted(p, Keys(d), depth)) == ks by {
        SpliceRebuildable(p, d, n);
        NewAbsPathRoundTrip(Config(p), ks);
      }
      SpliceIndex(Keys(d), Keys(p), n);
    }
  }

  /** The keys of a splice, position by position. */
  lemma SpliceIndex(kd: seq<string>, kp: seq<string>, n: nat)
    requires n <= |kd| && n <= |kp|
    ensures |kd[..n] + kp[n..]| == |kp|
    ensures forall i :: 0 <= i < n ==> (kd[..n] + kp[n..])[i] == kd[i]
    ensures forall i :: n <= i < |kp| ==> (kd[..n] + kp[n..])[i] == kp[i]
  {
  }

  // ---------------------------------------------------------------------
  // GetCompletions

  /** Which lister a completion uses: the config lister, or the lister at
      a position of the chain (possibly out of range). */
  datatype ListerRef = ConfigLevel | Level(index: int)

  /** What the classification of the typed path decides: the parent handed
      to the lister, the lister, the decoration and the extra suggestions. */
  datatype Setup = Setup(
    parent: ResourcePath,
    lister: ListerRef,
    prefix: string,
    suffix: string,
    extras: seq<string>)

  /** The source's behaviour, or the corrected one at a config's root
      (see `ParentPrefix` and `ParentIsDefault`). */
  datatype Variant = AsWritten | Corrected

  /** An absolute path with no keys that names a config: "//" or "//cfg". */
  predicate IsConfigLevel(arg: ResourcePath)
  {
    IsAbs(arg) && Depth(arg) == 0 && Config(arg).Some?
  }

  /** The typed path without its last key, with the same config. */
  function OriginalParent(arg: ResourcePath): ResourcePath
  {
    if Depth(arg) == 0 then arg
    else NewAbsPath(Config(arg), Keys(arg)[..Depth(arg) - 1])
  }

  /** The parent handed to the lister for an absolute path: the original
      parent with its leading placeholders replaced, as deep as the chain. */
  function ResolveParent(c: Completer, arg: ResourcePath): Result<ResourcePath, string>
  {
    if Depth(arg) == 0 then Success(arg)
    else ReplaceDefaults(OriginalParent(arg), c.defaultPathSource, |c.listers|)
  }

  /** The depth that picks the lister: a config root such as "//cfg/" has
      the single key "" and counts as depth 0. */
  function TrueDepth(p: ResourcePath): nat
  {
    if Depth(p) == 1 && Keys(p)[0] == "" then 0 else Depth(p)
  }

  predicate AllPlaceholders(keys: seq<string>)
  {
    forall i :: 0 <= i < |keys| ==> keys[i] == Placeholder
  }

  /** The parent consists of placeholders only. As written, a config root's
      single "" key makes this false; corrected, a root of depth 0 always
      qualifies, with or without a config. */
  predicate ParentIsDefault(parent: ResourcePath, variant: Variant)
  {
    (variant == Corrected && TrueDepth(parent) == 0) || AllPlaceholders(Keys(parent))
  }

  /** The text put before each suggestion. As written: the original parent
      and "/", or "/" at the root; for "//cfg/x" that is "//cfg//". The
      corrected form uses "//cfg/" there. */
  function ParentPrefix(arg: ResourcePath, variant: Variant): string
  {
    var original := OriginalParent(arg);
    if variant == Corrected && Config(arg).Some? && Depth(arg) == 1 then original
    else if Depth(original) >= 1 then original + "/"
    else "/"
  }

  /** The classification step of `GetCompletions`: relative paths complete
      under the default path with the last lister; "//" and "//cfg" list
      configs; other absolute paths list the children of their resolved
      parent with the lister at its depth. */
  function Plan(c: Completer, arg: ResourcePath, variant: Variant): Result<Setup, string>
  {
    if !IsAbs(arg) then
      var defaultPath :- c.defaultPathSource(None);
      Success(Setup(defaultPath, Level(|c.listers| - 1), "", "", ["/"]))
    else if IsConfigLevel(arg) then
      Success(Setup(arg, ConfigLevel, "//", "/", []))
    else
      var parent :- ResolveParent(c, arg);
      var level := TrueDepth(parent);
      var suffix := if |c.listers| > level + 1 then "/" else "";
      var defaultPath :- c.defaultPathSource(Config(arg));
      var offerDefault := level < |c.listers| && |c.listers| <= Depth(defaultPath)
        && ParentIsDefault(parent, variant);
      Success(Setup(parent, Level(level), ParentPrefix(arg, variant), suffix,
        (if offerDefault then [Placeholder + suffix] else []) + (if arg == "/" then ["/"] else [])))
  }

  function ListerAt(c: Completer, ref: ListerRef): Option<Lister>
  {
    match ref
    case ConfigLevel => c.configLister
    case Level(i) => if 0 <= i < |c.listers| then c.listers[i] else None
  }

  /** `GetCompletions` does not panic: every lister it indexes is in range
      and every lister it calls is present. The chain is indexed as soon as
      the parent is resolved, before the default path is fetched; the
      lister is called only after that fetch succeeds. */
  predicate Callable(c: Completer, arg: ResourcePath)
  {
    if !IsAbs(arg) then
      c.defaultPathSource(None).Success? ==> |c.listers| > 0 && c.listers[|c.listers| - 1].Some?
    else if IsConfigLevel(arg) then
      c.configLister.Some?
    else
      match ResolveParent(c, arg)
      case Failure(_) => true
      case Success(parent) =>
        TrueDepth(parent) < |c.listers|
        && (c.defaultPathSource(Config(arg)).Success? ==> c.listers[TrueDepth(parent)].Some?)
  }

  /** The original parent keeps the config and drops the last key; under
      a config a single key leaves the config root "//cfg/", whose one key
      is empty. */
  lemma OriginalParentShape(arg: ResourcePath)
    requires IsAbs(arg) && Depth(arg) >= 1
    ensures Config(OriginalParent(arg)) == Config(arg)
    ensures Depth(arg) >= 2 ==> Keys(OriginalParent(arg)) == Keys(arg)[..Depth(arg) - 1]
    ensures Depth(arg) == 1 ==> Keys(OriginalParent(arg)) == (if Config(arg).Some? then [""] else [])
  {
    var keys := Keys(arg);
    var n := |keys|;
    if n >= 2 {
      assert Rebuildable(Config(arg), keys[..n - 1]) by {
        KeysReassemble(arg);
        assert keys[..n - 1][0] == keys[0];
      }
      NewAbsPathRoundTrip(Config(arg), keys[..n - 1]);
    } else if Config(arg).Some? {
      assert keys[..0] == [];
      assert NewAbsPath(Config(arg), []) == NewAbsPath(Config(arg), [""]);
      NewAbsPathRoundTrip(Config(arg), [""]);
    } else {
      assert OriginalParent(arg) == "/";
    }
  }

  /** A completer whose listers are all present cannot panic on a path no
      deeper than its chain: the lister index is the parent's depth, one
      less than the typed path's. */
  lemma ShallowIsCallable(c: Completer, arg: ResourcePath)
    requires c.configLister.Some? && |c.listers| > 0
    requires forall i :: 0 <= i < |c.listers| ==> c.listers[i].Some?
    requires IsAbs(arg) && Depth(arg) >= 1 ==> SourceFits(OriginalParent(arg), c.defaultPathSource)
    requires Depth(arg) <= |c.listers|
    ensures Callable(c, arg)
  {
    if IsAbs(arg) && !IsConfigLevel(arg) && ResolveParent(c, arg).Success? && Depth(arg) >= 1 {
      var original := OriginalParent(arg);
      var parent := ResolveParent(c, arg).value;
      OriginalParentShape(arg);
      ReplaceDefaultsClosedForm(original, c.defaultPathSource, |c.listers|);
      if c.defaultPathSource(Config(original)).Success? {
        ReplaceDefaultsKeys(original, c.defaultPathSource, |c.listers|);
      }
      assert Depth(parent) == Depth(original);
      if Depth(arg) == 1 && Config(arg).Some? {
        assert Keys(original) == [""];
        assert parent == original;
      }
    }
  }

  /** `prefix + item + suffix` for every item. */
  function Decorate(prefix: string, items: seq<string>, suffix: string): seq<string>
  {
    seq(|items|, i requires 0 <= i < |items| => prefix + items[i] + suffix)
  }

  function Complete(c: Completer, arg: ResourcePath, variant: Variant): (r: Result<seq<string>, string>)
    requires Callable(c, arg)
    ensures r.Success? ==> Sorted(r.value)
  {
    var setup :- Plan(c, arg, variant);
    var options :- ListerAt(c, setup.lister).value(setup.parent);
    Success(Sort(Decorate(setup.prefix, options, setup.suffix) + Decorate(setup.prefix, setup.extras, "")))
  }

  /** `Completer.GetCompletions`: sorted suggestions for a partly typed
      path, or the first error of the default-path source or the lister. */
  function GetCompletions(c: Completer, arg: ResourcePath): (r: Result<seq<string>, string>)
    requires Callable(c, arg)
    ensures r.Success? ==> Sorted(r.value)
  {
    Complete(c, arg, AsWritten)
  }

  /** `GetCompletions` with the config root treated like the plain root. */
  function GetCompletionsCorrected(c: Completer, arg: ResourcePath): (r: Result<seq<string>, string>)
    requires Callable(c, arg)
    ensures r.Success? ==> Sorted(r.value)
  {
    Complete(c, arg, Corrected)
  }

  // ---------------------------------------------------------------------
  // Properties of GetCompletions

  lemma DecorateNothing(items: seq<string>)
    ensures Decorate("", items, "") == items
  {
    assert forall i :: 0 <= i < |items| ==> "" + items[i] + "" == items[i];
  }

  lemma DecorateExtras(prefix: string, suffix: string, offerDefault: bool, atRoot: bool)
    ensures multiset(Decorate(prefix, (if offerDefault then [Placeholder + suffix] else []) + (if atRoot then ["/"] else []), ""))
      == (if offerDefault then multiset{prefix + Placeholder + suffix} else multiset{})
         + (if atRoot then multiset{prefix + "/"} else multiset{})
  {
    var extras := (if offerDefault then [Placeholder + suffix] else []) + (if atRoot then ["/"] else []);
    var d := Decorate(prefix, extras, "");
    var onDefault := prefix + Placeholder + suffix;
    var onRoot := prefix + "/";
    assert onDefault + "" == onDefault && onRoot + "" == onRoot;
    assert |d| == |extras|;
    if offerDefault && atRoot {
      assert d[0] == onDefault && d[1] == onRoot;
      assert d == [onDefault, onRoot];
    } else if offerDefault {
      assert d[0] == onDefault;
      assert d == [onDefault];
    } else if atRoot {
      assert d[0] == onRoot;
      assert d == [onRoot];
    }
  }

  lemma DecoratedMember(prefix: string, items: seq<string>, suffix: string, i: nat)
    requires i < |items|
    ensures prefix + items[i] + suffix in multiset(Decorate(prefix, items, suffix))
  {
    assert Decorate(prefix, items, suffix)[i] == prefix + items[i] + suffix;
  }

  /** Every extra is suggested, after the prefix, once the lister succeeds. */
  lemma ExtraSuggested(c: Completer, arg: ResourcePath, variant: Variant, i: nat)
    requires Callable(c, arg) && Plan(c, arg, variant).Success?
    requires i < |Plan(c, arg, variant).value.extras|
    requires var setup := Plan(c, arg, variant).value;
      ListerAt(c, setup.lister).Some? && ListerAt(c, setup.lister).value(setup.parent).Success?
    ensures var setup := Plan(c, arg, variant).value;
      Complete(c, arg, variant).Success? && setup.prefix + setup.extras[i] in Complete(c, arg, variant).value
  {
    var setup := Plan(c, arg, variant).value;
    CompleteContents(c, arg, variant);
    DecoratedMember(setup.prefix, setup.extras, "", i);
    var x := setup.prefix + setup.extras[i];
    assert x + "" == x;
    var r := Complete(c, arg, variant).value;
    assert multiset(r) == multiset(Decorate(setup.prefix, ListerAt(c, setup.lister).value(setup.parent).value, setup.suffix))
      + multiset(Decorate(setup.prefix, setup.extras, ""));
    assert x in multiset(r);
  }

  /** The classification of an absolute path below the config level. */
  lemma PlanAbsolute(c: Completer, arg: ResourcePath, variant: Variant)
    requires IsAbs(arg) && !IsConfigLevel(arg)
    requires ResolveParent(c, arg).Success? && c.defaultPathSource(Config(arg)).Success?
    ensures var parent := ResolveParent(c, arg).value;
      var level := TrueDepth(parent);
      var suffix := if |c.listers| > level + 1 then "/" else "";
      var offerDefault := level < |c.listers| && |c.listers| <= Depth(c.defaultPathSource(Config(arg)).value)
        && ParentIsDefault(parent, variant);
      Plan(c, arg, variant) == Success(Setup(parent, Level(level), ParentPrefix(arg, variant), suffix,
        (if offerDefault then [Placeholder + suffix] else []) + (if arg == "/" then ["/"] else [])))
  {
  }

  /** The suggestions are the decorated lister options and extras, sorted;
      a lister error comes back unchanged. */
  lemma CompleteContents(c: Completer, arg: ResourcePath, variant: Variant)
    requires Callable(c, arg)
    requires Plan(c, arg, variant).Success?
    ensures var setup := Plan(c, arg, variant).value;
      && ListerAt(c, setup.lister).Some?
      && var options := ListerAt(c, setup.lister).value(setup.parent);
      && (options.Failure? ==> Complete(c, arg, variant) == Failure(options.error))
      && (options.Success? ==>
            && Complete(c, arg, variant).Success?
            && multiset(Complete(c, arg, variant).value)
               == multiset(Decorate(setup.prefix, options.value, setup.suffix))
                  + multiset(Decorate(setup.prefix, setup.extras, "")))
  {
    var setup := Plan(c, arg, variant).value;
    PlannedListerPresent(c, arg, variant);
    CompleteFromSetup(c, arg, variant, setup, ListerAt(c, setup.lister).value);
  }

  /** A completion that does not panic has the lister it plans to call. */
  lemma PlannedListerPresent(c: Completer, arg: ResourcePath, variant: Variant)
    requires Callable(c, arg) && Plan(c, arg, variant).Success?
    ensures ListerAt(c, Plan(c, arg, variant).value.lister).Some?
  {
    if IsAbs(arg) && !IsConfigLevel(arg) {
      PlanAbsolute(c, arg, variant);
    }
  }

  /** `CompleteContents` for a known plan and lister. */
  lemma CompleteFromSetup(c: Completer, arg: ResourcePath, variant: Variant, setup: Setup, lister: Lister)
    requires Callable(c, arg)
    requires Plan(c, arg, variant) == Success(setup)
    requires ListerAt(c, setup.lister).Some? && ListerAt(c, setup.lister).value == lister
    ensures lister(setup.parent).Failure? ==> Complete(c, arg, variant) == Failure(lister(setup.parent).error)
    ensures lister(setup.parent).Success? ==>
      && Complete(c, arg, variant).Success?
      && multiset(Complete(c, arg, variant).value)
         == multiset(Decorate(setup.prefix, lister(setup.parent).value, setup.suffix))
            + multiset(Decorate(setup.prefix, setup.extras, ""))
  {
  }

  /** A relative completion that does not panic has a last lister. */
  lemma RelativeListerPresent(c: Completer, arg: ResourcePath)
    requires !IsAbs(arg) && Callable(c, arg) && c.defaultPathSource(None).Success?
    ensures |c.listers| > 0 && c.listers[|c.listers| - 1].Some?
  {
  }

  /** A relative path completes under `GetDefaultPath(nil)` with the last
      lister: the options undecorated, plus "/". */
  lemma RelativeCompletions(c: Completer, arg: ResourcePath)
    requires !IsAbs(arg) && Callable(c, arg)
    ensures c.defaultPathSource(None).Failure? ==>
      GetCompletions(c, arg) == Failure(c.defaultPathSource(None).error)
    ensures c.defaultPathSource(None).Success? ==>
      var options := c.listers[|c.listers| - 1].value(c.defaultPathSource(None).value);
      && (options.Failure? ==> GetCompletions(c, arg) == Failure(options.error))
      && (options.Success? ==>
            && GetCompletions(c, arg).Success?
            && multiset(GetCompletions(c, arg).value) == multiset(options.value) + multiset{"/"})
  {
    if c.defaultPathSource(None).Success? {
      RelativeListerPresent(c, arg);
      RelativeListed(c, arg, c.defaultPathSource(None).value, c.listers[|c.listers| - 1].value);
    }
  }

  /** The relative case once the default path and the last lister are
      known. */
  lemma RelativeListed(c: Completer, arg: ResourcePath, d: ResourcePath, lister: Lister)
    requires !IsAbs(arg) && Callable(c, arg)
    requires c.defaultPathSource(None) == Success(d)
    requires |c.listers| > 0 && c.listers[|c.listers| - 1].Some? && c.listers[|c.listers| - 1].value == lister
    ensures lister(d).Failure? ==> GetCompletions(c, arg) == Failure(lister(d).error)
    ensures lister(d).Success? ==>
      && GetCompletions(c, arg).Success?
      && multiset(GetCompletions(c, arg).value) == multiset(lister(d).value) + multiset{"/"}
  {
    var setup := Setup(d, Level(|c.listers| - 1), "", "", ["/"]);
    assert Plan(c, arg, AsWritten) == Success(setup);
    CompleteFromSetup(c, arg, AsWritten, setup, lister);
    assert GetCompletions(c, arg) == Complete(c, arg, AsWritten);
    if lister(d).Success? {
      DecorateNothing(lister(d).value);
      DecorateNothing(["/"]);
    }
  }

  /** "//" and "//cfg" list configs with the config lister, called on the
      typed path itself, and render each as "//" + name + "/", with no
      extras. */
  lemma ConfigLevelCompletions(c: Completer, arg: ResourcePath)
    requires IsConfigLevel(arg) && Callable(c, arg)
    ensures var options := c.configLister.value(arg);
      && (options.Failure? ==> GetCompletions(c, arg) == Failure(options.error))
      && (options.Success? ==>
            && GetCompletions(c, arg).Success?
            && multiset(GetCompletions(c, arg).value)
               == multiset(seq(|options.value|, i requires 0 <= i < |options.value| => "//" + options.value[i] + "/")))
  {
    CompleteContents(c, arg, AsWritten);
    assert Decorate("//", [], "") == [];
  }

  /** Any other absolute path: errors from `ReplaceDefaults` and from the
      default-path source come back unchanged. */
  lemma AbsoluteErrors(c: Completer, arg: ResourcePath)
    requires IsAbs(arg) && !IsConfigLevel(arg) && Callable(c, arg)
    ensures ResolveParent(c, arg).Failure? ==>
      GetCompletions(c, arg) == Failure(ResolveParent(c, arg).error)
    ensures ResolveParent(c, arg).Success? && c.defaultPathSource(Config(arg)).Failure? ==>
      GetCompletions(c, arg) == Failure(c.defaultPathSource(Config(arg)).error)
  {
  }

  /** Otherwise the lister at the resolved parent's depth lists that
      parent, its options get the original parent and "/" in front (just
      "/" at the root) and a "/" behind exactly when a deeper lister
      exists, "..." is offered when the parent is all placeholders and the
      default path is as deep as the chain, and "/" alone also offers "//". */
  lemma AbsoluteCompletions(c: Completer, arg: ResourcePath)
    requires IsAbs(arg) && !IsConfigLevel(arg) && Callable(c, arg)
    requires ResolveParent(c, arg).Success? && c.defaultPathSource(Config(arg)).Success?
    ensures var parent := ResolveParent(c, arg).value;
      var defaultPath := c.defaultPathSource(Config(arg)).value;
      var level := TrueDepth(parent);
      var suffix := if |c.listers| > level + 1 then "/" else "";
      var prefix := if Depth(OriginalParent(arg)) >= 1 then OriginalParent(arg) + "/" else "/";
      var options := c.listers[level].value(parent);
      && (options.Failure? ==> GetCompletions(c, arg) == Failure(options.error))
      && (options.Success? ==>
            && GetCompletions(c, arg).Success?
            && multiset(GetCompletions(c, arg).value)
               == multiset(Decorate(prefix, options.value, suffix))
                  + ((if AllPlaceholders(Keys(parent)) && |c.listers| <= Depth(defaultPath)
                      then multiset{prefix + Placeholder + suffix} else multiset{})
                     + (if arg == "/" then multiset{"//"} else multiset{})))
  {
    var parent := ResolveParent(c, arg).value;
    AbsoluteListerPresent(c, arg);
    AbsoluteListed(c, arg, parent, c.defaultPathSource(Config(arg)).value, c.listers[TrueDepth(parent)].value);
  }

  /** An absolute completion that does not panic has the lister at the
      resolved parent's depth. */
  lemma AbsoluteListerPresent(c: Completer, arg: ResourcePath)
    requires IsAbs(arg) && !IsConfigLevel(arg) && Callable(c, arg)
    requires ResolveParent(c, arg).Success? && c.defaultPathSource(Config(arg)).Success?
    ensures TrueDepth(ResolveParent(c, arg).value) < |c.listers|
    ensures c.listers[TrueDepth(ResolveParent(c, arg).value)].Some?
  {
  }

  /** The absolute case once the parent, the default path and the lister
      are known. */
  lemma AbsoluteListed(c: Completer, arg: ResourcePath, parent: ResourcePath, defaultPath: ResourcePath, lister: Lister)
    requires IsAbs(arg) && !IsConfigLevel(arg) && Callable(c, arg)
    requires ResolveParent(c, arg) == Success(parent) && c.defaultPathSource(Config(arg)) == Success(defaultPath)
    requires TrueDepth(parent) < |c.listers| && c.listers[TrueDepth(parent)].Some?
    requires c.listers[TrueDepth(parent)].value == lister
    ensures var suffix := if |c.listers| > TrueDepth(parent) + 1 then "/" else "";
      var prefix := if Depth(OriginalParent(arg)) >= 1 then OriginalParent(arg) + "/" else "/";
      && (lister(parent).Failure? ==> GetCompletions(c, arg) == Failure(lister(parent).error))
      && (lister(parent).Success? ==>
            && GetCompletions(c, arg).Success?
            && multiset(GetCompletions(c, arg).value)
               == multiset(Decorate(prefix, lister(parent).value, suffix))
                  + ((if AllPlaceholders(Keys(parent)) && |c.listers| <= Depth(defaultPath)
                      then multiset{prefix + Placeholder + suffix} else multiset{})
                     + (if arg == "/" then multiset{"//"} else multiset{})))
  {
    var level := TrueDepth(parent);
    var suffix := if |c.listers| > level + 1 then "/" else "";
    var prefix := if Depth(OriginalParent(arg)) >= 1 then OriginalParent(arg) + "/" else "/";
    var offerDefault := AllPlaceholders(Keys(parent)) && |c.listers| <= Depth(defaultPath);
    var extras := (if offerDefault then [Placeholder + suffix] else []) + (if arg == "/" then ["/"] else []);
    var setup := Setup(parent, Level(level), prefix, suffix, extras);
    assert Plan(c, arg, AsWritten) == Success(setup) by {
      PlanAbsolute(c, arg, AsWritten);
      assert ParentPrefix(arg, AsWritten) == prefix;
    }
    CompleteFromSetup(c, arg, AsWritten, setup, lister);
    assert GetCompletions(c, arg) == Complete(c, arg, AsWritten);
    assert arg == "/" ==> prefix == "/" by {
      if arg == "/" {
        assert Keys(arg) == [];
      }
    }
    RootExtras(prefix, suffix, offerDefault, arg == "/");
  }

  /** The extras of an absolute completion, decorated: "..." after the
      prefix, and "//" at the root. */
  lemma RootExtras(prefix: string, suffix: string, offerDefault: bool, atRoot: bool)
    requires atRoot ==> prefix == "/"
    ensures multiset(Decorate(prefix, (if offerDefault then [Placeholder + suffix] else []) + (if atRoot then ["/"] else []), ""))
      == (if offerDefault then multiset{prefix + Placeholder + suffix} else multiset{})
         + (if atRoot then multiset{"//"} else multiset{})
  {
    DecorateExtras(prefix, suffix, offerDefault, atRoot);
    assert atRoot ==> prefix + "/" == "//";
  }

  /** The corrected prefix is exactly the typed text before its last key,
      so a suggestion replaces only the key being typed; as written this
      holds everywhere except directly under a config ("//cfg/x"). */
  lemma CorrectedPrefixReplacesLastKey(arg: ResourcePath)
    requires IsAbs(arg) && Depth(arg) >= 1
    ensures ParentPrefix(arg, Corrected) + Keys(arg)[Depth(arg) - 1] == arg
    ensures !(Config(arg).Some? && Depth(arg) == 1) ==> ParentPrefix(arg, AsWritten) == ParentPrefix(arg, Corrected)
  {
    if Depth(arg) >= 2 {
      DeepPrefixReplacesLastKey(arg);
    } else {
      ShallowPrefixReplacesLastKey(arg);
    }
  }

  /** Two or more keys: the prefix is the original parent and "/". */
  lemma DeepPrefixReplacesLastKey(arg: ResourcePath)
    requires IsAbs(arg) && Depth(arg) >= 2
    ensures ParentPrefix(arg, Corrected) == ParentPrefix(arg, AsWritten) == OriginalParent(arg) + "/"
    ensures OriginalParent(arg) + "/" + Keys(arg)[Depth(arg) - 1] == arg
  {
    var keys := Keys(arg);
    var n := |keys|;
    var init := keys[..n - 1];
    var parent := NewAbsPath(Config(arg), init);
    assert OriginalParent(arg) == parent;
    assert Depth(parent) == n - 1 by {
      assert Rebuildable(Config(arg), init) by {
        KeysReassemble(arg);
        assert init[0] == keys[0];
      }
      NewAbsPathRoundTrip(Config(arg), init);
    }
    LastKeyAppended(arg, init, keys[n - 1]);
  }

  /** An absolute path is its keys but the last, then "/" and the last. */
  lemma LastKeyAppended(arg: ResourcePath, init: seq<string>, last: string)
    requires IsAbs(arg) && Depth(arg) >= 2
    requires Keys(arg) == init + [last]
    ensures NewAbsPath(Config(arg), init) + "/" + last == arg
  {
    AbsPathRebuilt(arg);
    NewAbsPathSnoc(Config(arg), init, last);
  }

  /** One key: the prefix is "/" without a config and "//cfg/" (corrected)
      with one. */
  lemma ShallowPrefixReplacesLastKey(arg: ResourcePath)
    requires IsAbs(arg) && Depth(arg) == 1
    ensures ParentPrefix(arg, Corrected) + Keys(arg)[0] == arg
    ensures Config(arg).None? ==> ParentPrefix(arg, AsWritten) == ParentPrefix(arg, Corrected)
  {
    var keys := Keys(arg);
    AbsPathRebuilt(arg);
    assert Join(keys, Separator) == keys[0];
    if Config(arg).None? {
      assert OriginalParent(arg) == "/";
      KeysReassemble(OriginalParent(arg));
    }
  }

  /** The typed text up to and including its last separator. */
  function TextBeforeLastKey(arg: ResourcePath): (t: string)
    requires IsAbs(arg) && Depth(arg) >= 1
    ensures t + Keys(arg)[Depth(arg) - 1] == arg
  {
    CorrectedPrefixReplacesLastKey(arg);
    arg[..|arg| - |Keys(arg)[Depth(arg) - 1]|]
  }

  /** With the correction, every lister option `o` is suggested as the
      typed text with its last key replaced by `o` (and the suffix). */
  lemma CorrectedCompletionsReplaceLastKey(c: Completer, arg: ResourcePath)
    requires IsAbs(arg) && Depth(arg) >= 1 && Callable(c, arg)
    requires ResolveParent(c, arg).Success? && c.defaultPathSource(Config(arg)).Success?
    ensures var parent := ResolveParent(c, arg).value;
      var level := TrueDepth(parent);
      var suffix := if |c.listers| > level + 1 then "/" else "";
      var typed := TextBeforeLastKey(arg);
      var options := c.listers[level].value(parent);
      options.Success? ==>
        && GetCompletionsCorrected(c, arg).Success?
        && forall o :: o in options.value ==> typed + o + suffix in GetCompletionsCorrected(c, arg).value
  {
    var parent := ResolveParent(c, arg).value;
    AbsoluteListerPresent(c, arg);
    var lister := c.listers[TrueDepth(parent)].value;
    if lister(parent).Success? {
      PlanAbsolute(c, arg, Corrected);
      var setup := Plan(c, arg, Corrected).value;
      assert setup.lister == Level(TrueDepth(parent)) && setup.parent == parent;
      assert setup.prefix == TextBeforeLastKey(arg) by {
        CorrectedPrefixReplacesLastKey(arg);
      }
      ListedSuggested(c, arg, Corrected, setup, lister);
      assert GetCompletionsCorrected(c, arg) == Complete(c, arg, Corrected);
    }
  }

  /** Every lister option is suggested, between the prefix and the suffix. */
  lemma ListedSuggested(c: Completer, arg: ResourcePath, variant: Variant, setup: Setup, lister: Lister)
    requires Callable(c, arg)
    requires Plan(c, arg, variant) == Success(setup)
    requires ListerAt(c, setup.lister).Some? && ListerAt(c, setup.lister).value == lister
    requires lister(setup.parent).Success?
    ensures Complete(c, arg, variant).Success?
    ensures forall o :: o in lister(setup.parent).value ==>
      setup.prefix + o + setup.suffix in Complete(c, arg, variant).value
  {
    CompleteFromSetup(c, arg, variant, setup, lister);
    var options := lister(setup.parent).value;
    var r := Complete(c, arg, variant).value;
    forall o | o in options
      ensures setup.prefix + o + setup.suffix in r
    {
      var i :| 0 <= i < |options| && options[i] == o;
      DecoratedMember(setup.prefix, options, setup.suffix, i);
      assert setup.prefix + o + setup.suffix in multiset(r);
    }
  }

  /** With the correction, "..." is offered at every root of depth 0 with
      or without a config, whenever the default path is as deep as the
      chain. */
  lemma CorrectedRootOffersDefault(c: Completer, arg: ResourcePath)
    requires IsAbs(arg) && !IsConfigLevel(arg) && Callable(c, arg)
    requires ResolveParent(c, arg).Success? && TrueDepth(ResolveParent(c, arg).value) == 0
    requires c.defaultPathSource(Config(arg)).Success?
    requires 0 < |c.listers| <= Depth(c.defaultPathSource(Config(arg)).value)
    ensures var suffix := if |c.listers| > 1 then "/" else "";
      c.listers[0].value(ResolveParent(c, arg).value).Success? ==>
        && GetCompletionsCorrected(c, arg).Success?
        && ParentPrefix(arg, Corrected) + Placeholder + suffix in GetCompletionsCorrected(c, arg).value
  {
    PlanAbsolute(c, arg, Corrected);
    var setup := Plan(c, arg, Corrected).value;
    assert setup.extras[0] == Placeholder + setup.suffix;
    assert ListerAt(c, setup.lister) == c.listers[0];
    if c.listers[0].value(setup.parent).Success? {
      ExtraSuggested(c, arg, Corrected, 0);
      assert GetCompletionsCorrected(c, arg) == Complete(c, arg, Corrected);
      assert setup.prefix == ParentPrefix(arg, Corrected);
      assert setup.suffix == (if |c.listers| > 1 then "/" else "");
      assert setup.prefix + setup.extras[0] == setup.prefix + Placeholder + setup.suffix;
    }
  }

  /** The correction changes nothing outside a config: relative paths,
      the config level, "/" and every path without a config complete as
      written. */
  lemma CorrectionOnlyUnderConfig(c: Completer, arg: ResourcePath)
    requires Callable(c, arg)
    requires IsAbs(arg) && Depth(arg) >= 1 ==> SourceFits(OriginalParent(arg), c.defaultPathSource)
    requires Config(arg).None? || Depth(arg) == 0
    ensures GetCompletionsCorrected(c, arg) == GetCompletions(c, arg)
  {
    assert Plan(c, arg, Corrected) == Plan(c, arg, AsWritten) by {
      if IsAbs(arg) && !IsConfigLevel(arg) && ResolveParent(c, arg).Success?
        && c.defaultPathSource(Config(arg)).Success?
      {
        var parent := ResolveParent(c, arg).value;
        assert Config(arg).None?;
        ParentWithoutConfig(c, arg);
        PlainParentIsDefault(parent);
        if Depth(arg) >= 1 {
          CorrectedPrefixReplacesLastKey(arg);
        }
        PlanAbsolute(c, arg, Corrected);
        PlanAbsolute(c, arg, AsWritten);
      }
    }
    assert GetCompletionsCorrected(c, arg) == Complete(c, arg, Corrected);
    assert GetCompletions(c, arg) == Complete(c, arg, AsWritten);
  }

  /** Below a config's root the variants agree too: with two or more keys
      and a first key that is neither empty nor the placeholder, the parent
      is the typed one, not a root, and both prefixes are its text and "/". */
  lemma CorrectionOnlyAtConfigRoot(c: Completer, arg: ResourcePath)
    requires Callable(c, arg)
    requires IsAbs(arg) && Depth(arg) >= 2
    requires Keys(arg)[0] != "" && Keys(arg)[0] != Placeholder
    ensures GetCompletionsCorrected(c, arg) == GetCompletions(c, arg)
  {
    assert Plan(c, arg, Corrected) == Plan(c, arg, AsWritten) by {
      var original := OriginalParent(arg);
      OriginalParentShape(arg);
      assert Keys(original)[0] == Keys(arg)[0];
      assert ResolveParent(c, arg) == Success(original);
      assert TrueDepth(original) >= 1;
      DeepPrefixReplacesLastKey(arg);
      if c.defaultPathSource(Config(arg)).Success? {
        PlanAbsolute(c, arg, Corrected);
        PlanAbsolute(c, arg, AsWritten);
      }
    }
    assert GetCompletionsCorrected(c, arg) == Complete(c, arg, Corrected);
    assert GetCompletions(c, arg) == Complete(c, arg, AsWritten);
  }

  /** Without a config the resolved parent is a plain absolute path. */
  lemma ParentWithoutConfig(c: Completer, arg: ResourcePath)
    requires IsAbs(arg) && Config(arg).None? && ResolveParent(c, arg).Success?
    requires Depth(arg) >= 1 ==> SourceFits(OriginalParent(arg), c.defaultPathSource)
    ensures IsAbs(ResolveParent(c, arg).value) && Config(ResolveParent(c, arg).value).None?
  {
    if Depth(arg) >= 1 {
      var original := OriginalParent(arg);
      OriginalParentShape(arg);
      ReplaceDefaultsClosedForm(original, c.defaultPathSource, |c.listers|);
      if c.defaultPathSource(Config(original)).Success? {
        ReplaceDefaultsKeys(original, c.defaultPathSource, |c.listers|);
      }
    }
  }

  /** For a plain absolute parent the two variants agree on offering
      "...": its first key is never empty, so it is at the root only when
      it has no keys at all. */
  lemma PlainParentIsDefault(parent: ResourcePath)
    requires IsAbs(parent) && Config(parent).None?
    ensures ParentIsDefault(parent, Corrected) == ParentIsDefault(parent, AsWritten)
  {
    KeysReassemble(parent);
  }
}
