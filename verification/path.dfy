/** `ResourcePath`: a string-encoded hierarchical address. "/a/b" is
    absolute, "//cfg/a/b" is absolute and qualified by the config `cfg`,
    anything else is relative. Every accessor is a total function of the
    string, built on splitting at '/'. */
module Paths {
  import opened Wrappers
  import opened Strings

  /** A path is its string; `String()` in the source is the identity. */
  type ResourcePath = string

  const Separator: char := '/'

  /** The segment meaning "the current default at this position". */
  const Placeholder: string := "..."

  /** The path starts with '/'. */
  predicate IsAbs(p: ResourcePath)
    ensures IsAbs(p) <==> |p| > 0 && p[0] == Separator
  {
    HasPrefix(p, "/")
  }

  /** The config key: absent unless the path starts with "//", and then the
      whole separator-free segment that follows. */
  function Config(p: ResourcePath): (c: Option<string>)
    ensures c.Some? <==> HasPrefix(p, "//")
    ensures c.Some? ==> Separator !in c.value
    ensures c.Some? ==> HasPrefix(p, "//" + c.value)
    ensures c.Some? ==> |p| == 2 + |c.value| || p[2 + |c.value|] == Separator
  {
    if !HasPrefix(p, "//") then None
    else
      SplitDoubleSeparator(p);
      var rest := Split(p[2..], Separator);
      SplitJoinsBack(p[2..], Separator);
      assert p[2..] == rest[0] || p[2..] == rest[0] + [Separator] + Join(rest[1..], Separator);
      assert p == "//" + p[2..];
      Some(Split(p, Separator)[2])
  }

  /** A path that starts with '/' splits into "" and the parts of the rest. */
  lemma SplitLeadingSeparator(p: ResourcePath)
    requires |p| > 0 && p[0] == Separator
    ensures Split(p, Separator) == [""] + Split(p[1..], Separator)
  {
  }

  /** A path that starts with "//" splits into "", "" and the parts of the rest. */
  lemma SplitDoubleSeparator(p: ResourcePath)
    requires HasPrefix(p, "//")
    ensures Split(p, Separator) == ["", ""] + Split(p[2..], Separator)
  {
    SplitLeadingSeparator(p);
    assert p[1..][0] == Separator;
    SplitLeadingSeparator(p[1..]);
    assert p[1..][1..] == p[2..];
  }

  /** The keys after any config prefix: every split part for a relative
      path, the parts after the leading "" for an absolute one (none for
      "/"), and the parts after "", "" and the config segment for a
      config-qualified one. */
  function Keys(p: ResourcePath): (keys: seq<string>)
    ensures forall i :: 0 <= i < |keys| ==> Separator !in keys[i]
  {
    var parts := Split(p, Separator);
    if Config(p).Some? then
      SplitDoubleSeparator(p);
      parts[3..]
    else if IsAbs(p) then
      if |p| > 1 then parts[1..] else []
    else
      parts
  }

  /** A relative path is the join of its keys. */
  lemma RelativeReassembles(p: ResourcePath)
    requires !IsAbs(p)
    ensures |Keys(p)| >= 1 && Join(Keys(p), Separator) == p
    ensures |Keys(p)| >= 2 ==> Keys(p)[0] != ""
  {
    assert Config(p).None?;
    assert Keys(p) == Split(p, Separator);
    SplitJoinsBack(p, Separator);
  }

  /** An absolute path without a config is "/" and the join of its keys. */
  lemma AbsoluteReassembles(p: ResourcePath)
    requires IsAbs(p) && Config(p).None?
    ensures p == "/" + Join(Keys(p), Separator)
    ensures |Keys(p)| >= 1 ==> Keys(p)[0] != ""
  {
    if |p| > 1 {
      SplitLeadingSeparator(p);
      assert Keys(p) == Split(p[1..], Separator);
      SplitJoinsBack(p[1..], Separator);
      assert p == "/" + p[1..];
      assert p[1..][0] != Separator;
    } else {
      assert p == "/";
    }
  }

  /** A config-qualified path is "//", the config, and then "/" and the join
      of its keys when it has any. */
  lemma ConfigReassembles(p: ResourcePath)
    requires Config(p).Some?
    ensures |Keys(p)| == 0 ==> p == "//" + Config(p).value
    ensures |Keys(p)| > 0 ==> p == "//" + Config(p).value + "/" + Join(Keys(p), Separator)
  {
    SplitDoubleSeparator(p);
    var rest := Split(p[2..], Separator);
    SplitJoinsBack(p[2..], Separator);
    assert Keys(p) == rest[1..];
    assert Config(p).value == rest[0];
    assert p == "//" + p[2..];
    if |rest| > 1 {
      assert Join(rest, Separator) == rest[0] + [Separator] + Join(rest[1..], Separator);
    }
  }

  /** `Config` and `Keys` together reassemble the path exactly, so the config
      segment is never among the keys; without a config, the first key is
      empty only for a relative path with a single key. */
  lemma KeysReassemble(p: ResourcePath)
    ensures !IsAbs(p) ==> |Keys(p)| >= 1 && Join(Keys(p), Separator) == p
    ensures IsAbs(p) && Config(p).None? ==> p == "/" + Join(Keys(p), Separator)
    ensures Config(p).Some? && |Keys(p)| == 0 ==> p == "//" + Config(p).value
    ensures Config(p).Some? && |Keys(p)| > 0 ==> p == "//" + Config(p).value + "/" + Join(Keys(p), Separator)
    ensures Config(p).None? && |Keys(p)| >= 1 && (IsAbs(p) || |Keys(p)| >= 2) ==> Keys(p)[0] != ""
  {
    if Config(p).Some? {
      ConfigReassembles(p);
    } else if IsAbs(p) {
      AbsoluteReassembles(p);
    } else {
      RelativeReassembles(p);
    }
  }

  /** Number of keys; a relative path always has one. */
  function Depth(p: ResourcePath): (d: nat)
    ensures !IsAbs(p) ==> d >= 1
  {
    |Keys(p)|
  }

  /** An absolute path has no keys only when it is "/" or a bare config
      "//cfg". */
  lemma DepthZero(p: ResourcePath)
    ensures IsAbs(p) && Config(p).None? ==> (Depth(p) == 0 <==> p == "/")
    ensures Config(p).Some? ==> (Depth(p) == 0 <==> p == "//" + Config(p).value)
  {
    KeysReassemble(p);
  }

  /** Builds "/k1/k2/..." or, with a config key, "//cfg/k1/k2/...". */
  function NewAbsPath(configKey: Option<string>, keys: seq<string>): (p: ResourcePath)
    ensures IsAbs(p)
  {
    (if configKey.Some? then "//" + configKey.value + "/" else "/") + Join(keys, Separator)
  }

  /** One more key appends "/" and that key. */
  lemma NewAbsPathSnoc(configKey: Option<string>, keys: seq<string>, last: string)
    requires |keys| >= 1
    ensures NewAbsPath(configKey, keys + [last]) == NewAbsPath(configKey, keys) + "/" + last
  {
    var head := if configKey.Some? then "//" + configKey.value + "/" else "/";
    JoinSnoc(keys, last, Separator);
    assert head + (Join(keys, Separator) + [Separator] + last) == head + Join(keys, Separator) + "/" + last;
  }

  /** A built path reads back with the config it was built with, for any
      keys (none included), when the config is separator-free. */
  lemma NewAbsPathConfig(c: string, keys: seq<string>)
    requires Separator !in c
    ensures Config(NewAbsPath(Some(c), keys)) == Some(c)
  {
    var p := NewAbsPath(Some(c), keys);
    var joined := Join(keys, Separator);
    assert p == "//" + (c + [Separator] + joined);
    assert HasPrefix(p, "//");
    assert p[2..] == c + [Separator] + joined;
    SplitDoubleSeparator(p);
    SplitAfterPart(c, joined, Separator);
  }

  /** Without a config, a built path reads back with none, unless its first
      key is empty or starts with a separator. */
  lemma NewAbsPathNoConfig(keys: seq<string>)
    requires keys == [] || (keys[0] != "" && keys[0][0] != Separator)
    ensures Config(NewAbsPath(None, keys)) == None
  {
    var p := NewAbsPath(None, keys);
    if keys != [] {
      JoinStartsWithFirst(keys, Separator);
      assert p[1] == keys[0][0];
    } else {
      assert p == "/";
    }
  }

  /** The condition under which `NewAbsPath` can be parsed back: at least
      one key, no separators anywhere, and without a config the first key
      is not empty (otherwise the text would start with "//"). */
  predicate Rebuildable(configKey: Option<string>, keys: seq<string>)
  {
    && |keys| >= 1
    && (forall i :: 0 <= i < |keys| ==> Separator !in keys[i])
    && (configKey.Some? ==> Separator !in configKey.value)
    && (configKey.None? ==> keys[0] != "")
  }

  /** Round trip: parsing a built path gives back its config and keys. */
  lemma NewAbsPathRoundTrip(configKey: Option<string>, keys: seq<string>)
    requires Rebuildable(configKey, keys)
    ensures Config(NewAbsPath(configKey, keys)) == configKey
    ensures Keys(NewAbsPath(configKey, keys)) == keys
  {
    var p := NewAbsPath(configKey, keys);
    var joined := Join(keys, Separator);
    SplitJoin(keys, Separator);
    if configKey.Some? {
      var c := configKey.value;
      assert p == "//" + (c + [Separator] + joined);
      assert HasPrefix(p, "//");
      assert p[2..] == c + [Separator] + joined;
      SplitDoubleSeparator(p);
      SplitAfterPart(c, joined, Separator);
    } else {
      JoinStartsWithFirst(keys, Separator);
      assert p == [Separator] + joined;
      assert |p| > 1 && p[1] == keys[0][0];
      assert !HasPrefix(p, "//");
      SplitLeadingSeparator(p);
      assert p[1..] == joined;
    }
  }

  /** The other round trip: an absolute path is rebuilt from its config and
      keys, except "//cfg" (no keys), which rebuilds to "//cfg/". */
  lemma AbsPathRebuilt(p: ResourcePath)
    requires IsAbs(p)
    requires !(Config(p).Some? && Depth(p) == 0)
    ensures NewAbsPath(Config(p), Keys(p)) == p
  {
    KeysReassemble(p);
  }
}
