/**
  The configuration manager of config/__init__.py: every `X.py` module of the
  config directory contributes its `config` dict under the key `X`, and
  `Config.get` walks a dotted path through the nested dicts.
 */
module Configuration {
  import opened Wrappers
  import opened Text

  /** A configuration value: the leaves the config modules hold (strings,
      integers, booleans, `None`, anything else by its text), or a nested dict. */
  datatype Value =
    | Str(text: string)
    | Int(number: int)
    | Bool(flag: bool)
    | NoneValue
    | Other(repr: string)
    | Dict(entries: map<string, Value>)

  const Suffix: string := ".py"
  const PackageFile: string := "__init__.py"

  /** `s.endswith(t)`. */
  predicate EndsWith(s: string, t: string) {
    |t| <= |s| && s[|s| - |t|..] == t
  }

  /** The rule of `load_config`: a file name ending in `.py`, other than
      `__init__.py`, names a config module whose key is the name without `.py`. */
  function ModuleKey(filename: string): (r: Option<string>)
    ensures r.Some? <==> EndsWith(filename, Suffix) && filename != PackageFile
    ensures r.Some? ==> filename == r.value + Suffix
  {
    if EndsWith(filename, Suffix) && filename != PackageFile then
      Some(filename[..|filename| - |Suffix|])
    else
      None
  }

  /** `config_dict` after the discovery loop has visited `listing`, each
      module's `config` being `moduleConfig` of its key. */
  function Loaded(dict: map<string, Value>, listing: seq<string>, moduleConfig: string -> Value): map<string, Value> {
    if listing == [] then dict
    else
      var before := Loaded(dict, listing[..|listing| - 1], moduleConfig);
      match ModuleKey(listing[|listing| - 1])
      case None => before
      case Some(key) => before[key := moduleConfig(key)]
  }

  /** The path reaches a stored value: every segment but the last names a
      nested dict, and the last is a key of the innermost one. */
  predicate Present(level: map<string, Value>, keys: seq<string>)
    requires |keys| >= 1
    decreases |keys|
  {
    if |keys| == 1 then keys[0] in level
    else keys[0] in level && level[keys[0]].Dict? && Present(level[keys[0]].entries, keys[1..])
  }

  /** What `Config.get` returns for the split path `keys`: the default as soon
      as a segment is missing or holds a non-dict, else `.get` of the last
      segment on the innermost dict. */
  function Resolve(level: map<string, Value>, keys: seq<string>, default: Value): (r: Value)
    requires |keys| >= 1
    ensures |keys| == 1 ==> r == if keys[0] in level then level[keys[0]] else default
    ensures |keys| > 1 && (keys[0] !in level || !level[keys[0]].Dict?) ==> r == default
    decreases |keys|
  {
    if |keys| == 1 then
      if keys[0] in level then level[keys[0]] else default
    else if keys[0] in level && level[keys[0]].Dict? then
      Resolve(level[keys[0]].entries, keys[1..], default)
    else
      default
  }

  /** The configuration manager; `config_dict` is its one field. */
  class Config {
    var configDict: map<string, Value>

    /** `Config()`: an empty dict filled by `load_config` from the directory
        listing. */
    constructor(listing: seq<string>, moduleConfig: string -> Value)
      ensures configDict == Loaded(map[], listing, moduleConfig)
    {
      configDict := map[];
      new;
      LoadConfig(listing, moduleConfig);
    }

    /** `load_config`: each config module's `config` is stored under its key,
        in listing order. */
    method LoadConfig(listing: seq<string>, moduleConfig: string -> Value)
      modifies this
      ensures configDict == Loaded(old(configDict), listing, moduleConfig)
    {
      var i := 0;
      while i < |listing|
        invariant 0 <= i <= |listing|
        invariant configDict == Loaded(old(configDict), listing[..i], moduleConfig)
      {
        assert listing[..i + 1][..i] == listing[..i];
        var filename := listing[i];
        if EndsWith(filename, Suffix) && filename != PackageFile {
          var moduleName := filename[..|filename| - |Suffix|];
          configDict := configDict[moduleName := moduleConfig(moduleName)];
        }
        i := i + 1;
      }
      assert listing[..i] == listing;
    }

    /** `Config.get(path, default)`: split the path at its dots and walk all
        segments but the last, giving up with the default on a missing key or
        a non-dict value; then `.get` the last segment. */
    method Get(path: string, default: Value) returns (r: Value)
      ensures r == Resolve(configDict, Split(path, '.'), default)
    {
      var keys := Split(path, '.');
      var current := configDict;
      var i := 0;
      while i < |keys| - 1
        invariant 0 <= i <= |keys| - 1
        invariant Resolve(configDict, keys, default) == Resolve(current, keys[i..], default)
      {
        var key := keys[i];
        assert keys[i..][0] == key && keys[i..][1..] == keys[i + 1..];
        if key !in current || !current[key].Dict? {
          return default;
        }
        current := current[key].entries;
        i := i + 1;
      }
      var finalKey := keys[|keys| - 1];
      assert keys[i..] == [finalKey];
      r := if finalKey in current then current[finalKey] else default;
    }
  }

  /** `config(path, default)`: the module-level helper, the same as `Config.get`. */
  method ConfigValue(c: Config, path: string, default: Value) returns (r: Value)
    ensures r == Resolve(c.configDict, Split(path, '.'), default)
  {
    r := c.Get(path, default);
  }

  // ------------------------------------------------------------ properties

  /** The default comes back exactly when the path reaches nothing: a stored
      value, even a falsy one or `None`, is returned whatever the default. */
  lemma {:induction false} ResolvePresent(level: map<string, Value>, keys: seq<string>, d1: Value, d2: Value)
    requires |keys| >= 1
    ensures !Present(level, keys) ==> Resolve(level, keys, d1) == d1
    ensures Present(level, keys) ==> Resolve(level, keys, d1) == Resolve(level, keys, d2)
    decreases |keys|
  {
    if |keys| > 1 && keys[0] in level && level[keys[0]].Dict? {
      ResolvePresent(level[keys[0]].entries, keys[1..], d1, d2);
    }
  }

  /** The nested dicts `{k1: {k2: ... {kn: v}}}`. */
  function Nest(keys: seq<string>, v: Value): (r: map<string, Value>)
    requires |keys| >= 1
    ensures keys[0] in r
    decreases |keys|
  {
    if |keys| == 1 then map[keys[0] := v] else map[keys[0] := Dict(Nest(keys[1..], v))]
  }

  /** Storing a value under a path and reading the path back gives the value. */
  lemma {:induction false} ResolveNest(keys: seq<string>, v: Value, default: Value)
    requires |keys| >= 1
    ensures Present(Nest(keys, v), keys)
    ensures Resolve(Nest(keys, v), keys, default) == v
    decreases |keys|
  {
    if |keys| > 1 {
      ResolveNest(keys[1..], v, default);
    }
  }

  /** A path written with dots between dot-free segments is walked segment by
      segment. */
  lemma DottedPath(dict: map<string, Value>, segments: seq<string>, default: Value)
    requires |segments| >= 1 && forall s <- segments :: '.' !in s
    ensures Resolve(dict, Split(Join(segments, '.'), '.'), default) == Resolve(dict, segments, default)
  {
    SplitJoin(segments, '.');
  }

  /** A path without dots reads the top level directly. */
  lemma TopLevelPath(dict: map<string, Value>, key: string, default: Value)
    requires '.' !in key
    ensures Resolve(dict, Split(key, '.'), default) == if key in dict then dict[key] else default
  {
    SplitWithoutSeparator(key, '.');
  }

  /** Every discovered module is stored under its key, whatever else the
      listing holds; keys of no module are left as they were. */
  lemma {:induction false} LoadedHas(dict: map<string, Value>, listing: seq<string>, moduleConfig: string -> Value, key: string)
    ensures key in Loaded(dict, listing, moduleConfig)
        <==> key in dict || exists f <- listing :: ModuleKey(f) == Some(key)
    ensures (exists f <- listing :: ModuleKey(f) == Some(key)) ==> Loaded(dict, listing, moduleConfig)[key] == moduleConfig(key)
    ensures (forall f <- listing :: ModuleKey(f) != Some(key)) && key in dict ==> Loaded(dict, listing, moduleConfig)[key] == dict[key]
  {
    if listing != [] {
      var init := listing[..|listing| - 1];
      var last := listing[|listing| - 1];
      LoadedHas(dict, init, moduleConfig, key);
      assert forall f <- listing :: f in init || f == last;
      assert forall f <- init :: f in listing;
      assert last in listing;
    }
  }

  /** `ollama.py` becomes the key `ollama`, so `ollama.host` reads the `host`
      entry of that module's dict. */
  lemma OllamaHost(listing: seq<string>, moduleConfig: string -> Value, default: Value)
    requires "ollama.py" in listing
    requires moduleConfig("ollama").Dict? && "host" in moduleConfig("ollama").entries
    ensures Resolve(Loaded(map[], listing, moduleConfig), Split("ollama.host", '.'), default)
        == moduleConfig("ollama").entries["host"]
  {
    assert "ollama.py"[6..] == Suffix && "ollama.py"[..6] == "ollama";
    assert ModuleKey("ollama.py") == Some("ollama");
    LoadedHas(map[], listing, moduleConfig, "ollama");
    assert Join(["ollama", "host"], '.') == "ollama.host";
    SplitJoin(["ollama", "host"], '.');
  }
}
