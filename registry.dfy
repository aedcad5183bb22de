// The configuration registry of cfitall/registry.py: the defaults, each
// registered provider's dict and the explicitly set values, deep-merged in
// that order of precedence, and the lookups made on the flattened result.
// The reads are functions of the merged tree; `set`, `set_default`,
// `update` and the merge loop are methods of the registry class.
module Registry {
  import opened Wrappers
  import opened Strings
  import opened Values
  import opened Tree
  import opened Utils
  import opened Sorting
  import opened MergeProperties
  import opened FlattenProperties
  import opened Providers
  import opened Manager
  import Environment
  import Filesystem

  // --------------------------------------------------------- precedence

  /**
   * Merging `sources` one after the other into `{}`, later sources over
   * earlier ones, as `_merge_configs` does; a source that raised while it
   * was being read ends the merge with its exception.
   */
  function MergeAll(sources: seq<Result<Dict>>): Result<Dict>
  {
    if sources == [] then Ok([])
    else match MergeAll(sources[..|sources| - 1])
      case Err(e) => Err(e)
      case Ok(acc) =>
        match sources[|sources| - 1]
        case Err(e) => Err(e)
        case Ok(src) => Merge(src, acc)
  }

  /**
   * The leaf at the lower-case path `x` by precedence alone: the answer of
   * the last source that decides `x`, or None when none does.
   */
  function Resolve(sources: seq<Result<Dict>>, x: seq<string>): Option<Value>
    requires |x| > 0
  {
    if sources == [] then None
    else
      var last := sources[|sources| - 1];
      match (if last.Ok? then Decides(last.value, x) else None)
      case Some(o) => o
      case None => Resolve(sources[..|sources| - 1], x)
  }

  /** Every source read without raising has distinct keys after lower-casing, at every level. */
  predicate AllLowerDistinct(sources: seq<Result<Dict>>)
  {
    forall i :: 0 <= i < |sources| && sources[i].Ok? ==> LowerDistinct(sources[i].value)
  }

  /** No key of any source, at any level, contains `c`. */
  predicate AllFree(sources: seq<Result<Dict>>, c: char)
  {
    forall i :: 0 <= i < |sources| && sources[i].Ok? ==> KeysFree(sources[i].value, c)
  }

  /**
   * A merge of all sources that does not raise holds, at every path, the
   * leaf that precedence gives: a higher-precedence source wins where it
   * decides the path.
   */
  lemma {:induction false} MergeAllLeafAt(sources: seq<Result<Dict>>, x: seq<string>)
    requires |x| > 0 && AllLowerDistinct(sources) && MergeAll(sources).Ok?
    ensures LeafAt(MergeAll(sources).value, x) == Resolve(sources, x)
  {
    if sources != [] {
      var init := sources[..|sources| - 1];
      assert forall i :: 0 <= i < |init| ==> init[i] == sources[i];
      MergeAllLeafAt(init, x);
      var src := sources[|sources| - 1].value;
      MergeLeafAt(src, |src|, MergeAll(init).value, x);
      assert src[..|src|] == src;
    }
  }

  /** The merged tree has distinct, lower-case keys at every level. */
  lemma {:induction false} MergeAllShape(sources: seq<Result<Dict>>)
    requires MergeAll(sources).Ok?
    ensures WellFormed(MergeAll(sources).value) && LowerKeys(MergeAll(sources).value)
  {
    if sources != [] {
      var init := sources[..|sources| - 1];
      MergeAllShape(init);
      var src := sources[|sources| - 1].value;
      MergeShape(src, |src|, MergeAll(init).value);
    }
  }

  // -------------------------------------------- keys free of a character

  lemma LowerFree(s: string, c: char)
    requires c !in s && !('a' <= c <= 'z')
    ensures c !in Lower(s)
  {
  }

  lemma SetFree(d: Dict, k: string, node: Node, c: char)
    requires KeysFree(d, c) && c !in k && (node.Branch? ==> KeysFree(node.entries, c))
    ensures KeysFree(Set(d, k, node), c)
  {
    SetEntries(d, k, node);
    var r := Set(d, k, node);
    forall i | 0 <= i < |r|
      ensures c !in r[i].0 && (r[i].1.Branch? ==> KeysFree(r[i].1.entries, c))
    {
      assert r[i] in r;
      if r[i] != (k, node) {
        var j :| 0 <= j < |d| && d[j] == r[i];
      }
    }
  }

  lemma {:induction false} EntryFree(acc: Dict, key: string, node: Node, c: char)
    requires KeysFree(acc, c) && c !in key && !('a' <= c <= 'z')
    requires node.Branch? ==> KeysFree(node.entries, c)
    requires MergeEntry(acc, key, node).Ok?
    ensures KeysFree(MergeEntry(acc, key, node).value, c)
    decreases node, 1
  {
    match node
    case Leaf(_) => SetFree(acc, key, node, c);
    case Branch(sub) =>
      var g := Get(acc, key);
      if !(g.Some? && g.value.Leaf?) {
        if g.Some? {
          var j :| 0 <= j < |acc| && acc[j] == (key, g.value);
        }
        MergeFree(sub, |sub|, SubDict(g), c);
        SetFree(acc, key, Branch(MergePrefix(sub, |sub|, SubDict(g)).value), c);
      }
  }

  /**
   * Merging a source whose keys avoid `c` into a destination whose keys
   * avoid it gives a tree whose keys avoid it, as long as lower-casing
   * cannot produce `c`.
   */
  lemma {:induction false} MergeFree(src: Dict, n: nat, dst: Dict, c: char)
    requires n <= |src| && KeysFree(src, c) && KeysFree(dst, c) && !('a' <= c <= 'z')
    requires MergePrefix(src, n, dst).Ok?
    ensures KeysFree(MergePrefix(src, n, dst).value, c)
    decreases Branch(src), 0, n
  {
    if n > 0 {
      MergeFree(src, n - 1, dst, c);
      LowerFree(src[n - 1].0, c);
      assert src[n - 1].1 in [src[n - 1].1];
      EntryFree(MergePrefix(src, n - 1, dst).value, Lower(src[n - 1].0), src[n - 1].1, c);
    }
  }

  lemma {:induction false} MergeAllFree(sources: seq<Result<Dict>>, c: char)
    requires AllFree(sources, c) && !('a' <= c <= 'z') && MergeAll(sources).Ok?
    ensures KeysFree(MergeAll(sources).value, c)
  {
    if sources != [] {
      var init := sources[..|sources| - 1];
      assert forall i :: 0 <= i < |init| ==> init[i] == sources[i];
      MergeAllFree(init, c);
      var src := sources[|sources| - 1].value;
      MergeFree(src, |src|, MergeAll(init).value, c);
    }
  }

  // ------------------------------------------------------------- lookups

  /** `self.flattened[key]`: the flattened merged tree at `key`, None for a KeyError. */
  function Lookup(merged: Result<Dict>, key: string): Result<Option<Value>>
  {
    match merged
    case Err(e) => Err(e)
    case Ok(t) => Ok(Get(Flatten(t), key))
  }

  /**
   * `get(key)`: the flattened entry, or None when the key is absent. A
   * TypeError while merging is caught as well; other exceptions propagate.
   */
  function GetKey(merged: Result<Dict>, key: string): Result<Option<Value>>
  {
    match Lookup(merged, key)
    case Err(TypeError) => Ok(None)
    case r => r
  }

  /**
   * A lookup sees exactly what precedence gives at the dotted path: the
   * key is split on "." and no key is case-folded.
   */
  lemma ResolveLookup(sources: seq<Result<Dict>>, key: string)
    requires AllLowerDistinct(sources) && AllFree(sources, '.') && MergeAll(sources).Ok?
    ensures Lookup(MergeAll(sources), key) == Ok(Resolve(sources, Split(key, ".")))
  {
    var t := MergeAll(sources).value;
    MergeAllShape(sources);
    MergeAllFree(sources, '.');
    FlattenGet(t, '.', key);
    MergeAllLeafAt(sources, Split(key, "."));
  }

  /** `get(key)` returns the value precedence gives, or None where the merge raises a TypeError. */
  lemma GetKeyResolves(sources: seq<Result<Dict>>, key: string)
    requires AllLowerDistinct(sources) && AllFree(sources, '.')
    ensures MergeAll(sources).Ok? ==> GetKey(MergeAll(sources), key) == Ok(Resolve(sources, Split(key, ".")))
    ensures MergeAll(sources) == Err(TypeError) ==> GetKey(MergeAll(sources), key) == Ok(None)
  {
    if MergeAll(sources).Ok? {
      ResolveLookup(sources, key);
    }
  }

  lemma {:induction false} JoinLower(parts: seq<string>, sep: string)
    requires IsLowerCase(sep) && forall j :: 0 <= j < |parts| ==> IsLowerCase(parts[j])
    ensures IsLowerCase(Join(parts, sep))
  {
    if |parts| > 1 {
      JoinLower(parts[1..], sep);
      var rest := Join(parts[1..], sep);
      assert Join(parts, sep) == parts[0] + sep + rest;
      assert forall i :: 0 <= i < |parts[0] + sep + rest| ==>
        (parts[0] + sep + rest)[i] == if i < |parts[0]| then parts[0][i]
          else if i < |parts[0]| + |sep| then sep[i - |parts[0]|] else rest[i - |parts[0]| - |sep|];
    }
  }

  /** No case folding: a key with an upper-case letter is never found. */
  lemma UpperKeyMissing(sources: seq<Result<Dict>>, key: string)
    requires AllLowerDistinct(sources) && AllFree(sources, '.') && MergeAll(sources).Ok?
    requires !IsLowerCase(key)
    ensures Lookup(MergeAll(sources), key) == Ok(None)
  {
    var t := MergeAll(sources).value;
    var x := Split(key, ".");
    MergeAllShape(sources);
    MergeAllFree(sources, '.');
    FlattenGet(t, '.', key);
    JoinSplit(key, ".");
    if LeafAt(t, x).Some? {
      LeafAtLower(t, x);
      JoinLower(x, ".");
    }
  }

  // ------------------------------------------------------- typed lookups

  /** `get_bool(key)`: Python truthiness of the entry; only a KeyError is caught. */
  function GetBool(merged: Result<Dict>, key: string): Outcome<Option<bool>>
  {
    match Lookup(merged, key)
    case Err(e) => Raised(e)
    case Ok(None) => Returned(None)
    case Ok(Some(v)) =>
      match Truthy(v)
      case Returned(b) => Returned(Some(b))
      case Raised(e) => Raised(e)
      case Unmodelled => Unmodelled
  }

  /** `get_int(key)`: `int()` of the entry; only a KeyError is caught. */
  function GetInt(merged: Result<Dict>, key: string): Outcome<Option<int>>
  {
    match Lookup(merged, key)
    case Err(e) => Raised(e)
    case Ok(None) => Returned(None)
    case Ok(Some(v)) =>
      match IntOf(v)
      case Returned(n) => Returned(Some(n))
      case Raised(e) => Raised(e)
      case Unmodelled => Unmodelled
  }

  /** `[val.strip() for val in parts]` */
  function StripAll(parts: seq<string>): (r: seq<string>)
    ensures |r| == |parts| && forall i :: 0 <= i < |parts| ==> r[i] == Strip(parts[i])
  {
    seq(|parts|, i requires 0 <= i < |parts| => Strip(parts[i]))
  }

  /**
   * The list `get_list` makes of an entry: with `csv`, a non-list entry is
   * split on "," and each piece stripped (a value without `split`, such as
   * an int, raises AttributeError); otherwise `list(value)`.
   */
  function ListFrom(v: Value, csv: bool): Result<seq<Value>>
  {
    if !v.List? && csv then
      if v.Str? then Ok(Strs(StripAll(Split(v.s, ",")))) else Err(AttributeError)
    else ListOf(v)
  }

  /** `get_list(key, csv)`; only a KeyError is caught. */
  function GetList(merged: Result<Dict>, key: string, csv: bool := true): Result<Option<seq<Value>>>
  {
    match Lookup(merged, key)
    case Err(e) => Err(e)
    case Ok(None) => Ok(None)
    case Ok(Some(v)) =>
      match ListFrom(v, csv)
      case Ok(xs) => Ok(Some(xs))
      case Err(e) => Err(e)
  }

  /** A lookup of a present key by each getter, with Python's conversions. */
  lemma GettersAgree(merged: Result<Dict>, key: string, v: Value)
    requires Lookup(merged, key) == Ok(Some(v))
    ensures GetKey(merged, key) == Ok(Some(v))
    ensures v == Int(1) ==> GetBool(merged, key) == Returned(Some(true)) && GetInt(merged, key) == Returned(Some(1))
    ensures v == Int(0) ==> GetBool(merged, key) == Returned(Some(false)) && GetInt(merged, key) == Returned(Some(0))
    ensures v.Bool? ==> GetInt(merged, key) == Returned(Some(if v.b then 1 else 0))
    ensures v.List? ==> GetList(merged, key) == Ok(Some(v.items)) && GetList(merged, key, false) == Ok(Some(v.items))
    ensures v.Str? ==> GetList(merged, key, false) == Ok(Some(ListOf(v).value))
  {
  }

  /**
   * Only `get` swallows a TypeError raised while merging: the typed
   * getters raise it.
   */
  lemma TypeErrorCaughtOnlyByGet(key: string)
    ensures GetKey(Err(TypeError), key) == Ok(None)
    ensures GetBool(Err(TypeError), key) == Raised(TypeError)
    ensures GetInt(Err(TypeError), key) == Raised(TypeError)
    ensures GetList(Err(TypeError), key) == Err(TypeError)
  {
  }

  /**
   * `get_list` with `csv` undoes a comma join: a string of comma-free,
   * already stripped items comes back as those items.
   */
  lemma ListFromCsvJoin(items: seq<string>)
    requires |items| > 0
    requires forall i :: 0 <= i < |items| ==> ',' !in items[i] && Strip(items[i]) == items[i]
    ensures ListFrom(Str(Join(items, ",")), true) == Ok(Strs(items))
  {
    assert "," == [','];
    SplitJoin(items, ',');
    assert StripAll(items) == items;
  }

  /** `get_int` of a string holding a decimal integer is that integer. */
  lemma GetIntOfText(merged: Result<Dict>, key: string, n: int)
    requires Lookup(merged, key) == Ok(Some(Str(ShowInt(n))))
    ensures GetInt(merged, key) == Returned(Some(n))
  {
    IntOfShowInt(n);
  }

  // -------------------------------------------------- keys and variables

  /** `config_keys`: the flattened keys, sorted. */
  function ConfigKeys(merged: Result<Dict>): Result<seq<string>>
  {
    match merged
    case Err(e) => Err(e)
    case Ok(t) => Ok(Sort(Keys(Flatten(t))))
  }

  /** `config_keys` is sorted and lists exactly the keys `get` finds. */
  lemma ConfigKeysFound(merged: Result<Dict>, key: string)
    requires merged.Ok?
    ensures Sorted(ConfigKeys(merged).value)
    ensures key in ConfigKeys(merged).value <==> GetKey(merged, key).value.Some?
  {
    var ks := Keys(Flatten(merged.value));
    assert key in Sort(ks) <==> key in multiset(Sort(ks));
    assert key in ks <==> key in multiset(ks);
  }

  /** The variable `env_vars` names for a flattened key. */
  function EnvVarName(e: Environment.EnvironmentProvider, key: string): string
  {
    Environment.Prefix(e) + ReplaceChar(Upper(key), '.', e.levelSeparator)
  }

  function EnvVarNames(e: Environment.EnvironmentProvider, keys: seq<string>): (r: seq<string>)
    ensures |r| == |keys| && forall i :: 0 <= i < |keys| ==> r[i] == EnvVarName(e, keys[i])
  {
    seq(|keys|, i requires 0 <= i < |keys| => EnvVarName(e, keys[i]))
  }

  /**
   * `env_vars` given what `providers.get("environment")` returned: no
   * provider gives []; a file provider under that name has no
   * `level_separator`, an AttributeError as soon as there is a key.
   */
  function EnvVars(merged: Result<Dict>, env: Option<Provider>): Result<seq<string>>
  {
    match env
    case None => Ok([])
    case Some(p) =>
      match merged
      case Err(e) => Err(e)
      case Ok(t) =>
        var keys := Keys(Flatten(t));
        match p
        case Env(e) => Ok(Sort(EnvVarNames(e, keys)))
        case Files(_) => if keys == [] then Ok([]) else Err(AttributeError)
  }

  /**
   * Each variable `env_vars` names for a lower-case key is one the
   * environment provider reads back, under that key with its dots turned
   * into the level separator.
   */
  lemma EnvVarNameReadBack(e: Environment.EnvironmentProvider, key: string)
    requires IsLowerCase(key) && IsLowerCase(e.levelSeparator)
    ensures Environment.EnvKey(e, EnvVarName(e, key)) == Some(ReplaceChar(key, '.', e.levelSeparator))
  {
    var name := EnvVarName(e, key);
    var rest := ReplaceChar(Upper(key), '.', e.levelSeparator);
    assert name[..|Environment.Prefix(e)|] == Environment.Prefix(e);
    assert name[|Environment.Prefix(e)|..] == rest;
    LowerReplace(Upper(key), '.', e.levelSeparator);
    LowerUpper(key);
    LowerIsLowerCase(key);
    LowerIsLowerCase(e.levelSeparator);
  }

  /** `env_vars` is sorted and names one variable for each flattened key. */
  lemma EnvVarsNames(merged: Result<Dict>, e: Environment.EnvironmentProvider)
    requires merged.Ok?
    ensures EnvVars(merged, Some(Env(e))).Ok?
    ensures Sorted(EnvVars(merged, Some(Env(e))).value)
    ensures multiset(EnvVars(merged, Some(Env(e))).value) == multiset(EnvVarNames(e, Keys(Flatten(merged.value))))
  {
  }

  // ------------------------------------------------------- set and default

  /**
   * `merge_dicts(expand_flattened_dict({key: value}), tree)`: the tree after
   * `set` or `set_default`, or the exception the merge raises.
   */
  function Assigned(tree: Dict, key: string, value: Value): Result<Dict>
  {
    match ExpandFlattened([(key, value)])
    case Err(e) => Err(e)
    case Ok(expanded) => Merge(expanded, tree)
  }

  lemma {:induction false} ChainLowerDistinct(path: seq<string>, v: Value)
    requires |path| > 0
    ensures LowerDistinct([(path[0], Chain(path[1..], v))])
    decreases |path|
  {
    if |path| > 1 {
      ChainLowerDistinct(path[1..], v);
      assert path[1..][1..] == path[2..];
    }
  }

  lemma LowerPathTwice(p: seq<string>)
    ensures LowerPath(LowerPath(p)) == LowerPath(p)
  {
    forall j | 0 <= j < |p| ensures Lower(Lower(p[j])) == Lower(p[j]) {
      LowerIsLowerCase(Lower(p[j]));
    }
  }

  /** The expanded one-entry dict of `set(key, value)`: the chain along the dotted key. */
  lemma AssignedChain(key: string, value: Value)
    ensures ExpandFlattened([(key, value)]) ==
              Ok([(Split(key, ".")[0], Chain(Split(key, ".")[1..], CommaSplit(value)))])
  {
    ExpandOne(key, value, ".");
    ExpandFlattenedPathChain(key, ".", CommaSplit(value));
  }

  /**
   * After `set(key, value)`, the tree holds the value at the lower-cased
   * dotted path, a string with a comma before any newline split on its
   * commas; paths under other top-level keys keep their leaves.
   */
  lemma AssignedLeafAt(tree: Dict, key: string, value: Value, x: seq<string>)
    requires Assigned(tree, key, value).Ok? && |x| > 0
    ensures LeafAt(Assigned(tree, key, value).value, LowerPath(Split(key, "."))) == Some(CommaSplit(value))
    ensures x[0] != Lower(Split(key, ".")[0]) ==> LeafAt(Assigned(tree, key, value).value, x) == LeafAt(tree, x)
  {
    var p := Split(key, ".");
    var v := CommaSplit(value);
    var expanded := [(p[0], Chain(p[1..], v))];
    AssignedChain(key, value);
    assert Assigned(tree, key, value) == Merge(expanded, tree);
    LeafAtChain(p, v, p);
    ChainLowerDistinct(p, v);
    MergeSourceLeaf(expanded, tree, p, v);
    if x[0] != Lower(p[0]) {
      MergeLeafAtOther(expanded, 1, tree, x);
      assert expanded[..0] == [];
    }
  }

  /**
   * A value set with `set` wins over every other source: whatever the
   * defaults and providers hold, the merged tree has it at its path.
   */
  lemma SetWins(sources: seq<Result<Dict>>, super: Dict, key: string, value: Value)
    requires WellFormed(super) && LowerKeys(super) && Assigned(super, key, value).Ok?
    ensures Resolve(sources + [Assigned(super, key, value)], LowerPath(Split(key, "."))) == Some(CommaSplit(value))
  {
    var p := Split(key, ".");
    var t := Assigned(super, key, value).value;
    var ss := sources + [Assigned(super, key, value)];
    assert ss[..|ss| - 1] == sources;
    AssignedLeafAt(super, key, value, p);
    AssignedChain(key, value);
    MergeShape([(p[0], Chain(p[1..], CommaSplit(value)))], 1, super);
    LowerKeysDistinct(t);
    DecidesLeaf(t, LowerPath(p), CommaSplit(value));
    LowerPathTwice(p);
  }

  /**
   * A default applies where no provider and no set value decides the path:
   * the lookup falls through every later source to the defaults.
   */
  lemma {:induction false} DefaultFallsThrough(defaults: Result<Dict>, later: seq<Result<Dict>>, x: seq<string>)
    requires |x| > 0
    requires forall i :: 0 <= i < |later| && later[i].Ok? ==> Decides(later[i].value, x).None?
    ensures Resolve([defaults] + later, x) == Resolve([defaults], x)
  {
    if later != [] {
      var init := later[..|later| - 1];
      assert ([defaults] + later)[..|later|] == [defaults] + init;
      DefaultFallsThrough(defaults, init, x);
    }
  }

  // ---------------------------------------------------- default providers

  /**
   * `EnvironmentProvider(name, level_separator, value_separator,
   * cast_bool=True, value_split=True)` called with the separators given;
   * a missing required argument is a TypeError.
   */
  function NewEnvironmentProvider(name: string, levelSeparator: Option<string>, valueSeparator: Option<string>)
    : (r: Result<Environment.EnvironmentProvider>)
    ensures r.Ok? <==> levelSeparator.Some? && valueSeparator.Some?
    ensures r.Ok? ==> r.value.name == name && r.value.castBool && r.value.valueSplit
  {
    if levelSeparator.None? || valueSeparator.None? then Err(TypeError)
    else Ok(Environment.EnvironmentProvider(name, levelSeparator.value, valueSeparator.value, true, true))
  }

  /** The environment provider of a registry built without providers, as written: `EnvironmentProvider(name)`. */
  function DefaultEnvironmentAsWritten(name: string): Result<Environment.EnvironmentProvider>
  {
    NewEnvironmentProvider(name, None, None)
  }

  /** Building a registry without providers raises: the call passes neither separator. */
  lemma DefaultEnvironmentRaises(name: string)
    ensures DefaultEnvironmentAsWritten(name) == Err(TypeError)
  {
  }

  /** The environment provider intended there, with the separators `__` and `,`. */
  function DefaultEnvironment(name: string): (e: Environment.EnvironmentProvider)
    ensures Environment.Prefix(e) == Upper(name) + "__"
  {
    NewEnvironmentProvider(name, Some("__"), Some(",")).value
  }

  /**
   * The variables `env_vars` lists for the default environment provider
   * are read back under their keys, dots turned into `__`.
   */
  lemma DefaultEnvVarsReadBack(name: string, key: string)
    requires IsLowerCase(key)
    ensures Environment.EnvKey(DefaultEnvironment(name), EnvVarName(DefaultEnvironment(name), key))
              == Some(ReplaceChar(key, '.', "__"))
  {
    EnvVarNameReadBack(DefaultEnvironment(name), key);
  }

  /** `os.path.join(home, ".local", "etc", name)` before `os.path.join("/etc", name)` when HOME is set. */
  function DefaultPath(name: string, home: string): (path: seq<string>)
    ensures |path| == if home == "" then 1 else 2
    ensures path[|path| - 1] == Filesystem.JoinPath("/etc", name)
  {
    var etc := [Filesystem.JoinPath("/etc", name)];
    if home == "" then etc
    else [Filesystem.JoinPath(Filesystem.JoinPath(Filesystem.JoinPath(home, ".local"), "etc"), name)] + etc
  }

  /** The dicts of the providers `ps`, in order, as read from `world`. */
  function Layers(ps: seq<Provider>, world: World): (r: seq<Result<Dict>>)
    reads FileObjects(ps)
    ensures |r| == |ps| && forall i :: 0 <= i < |ps| ==> r[i] == DictOf(ps[i], world)
  {
    seq(|ps|, i requires 0 <= i < |ps| reads FileObjects(ps) => DictOf(ps[i], world))
  }

  /** The providers a registry gets when none are given: a file provider, then the environment. */
  method DefaultProviders(name: string, home: string, world: World) returns (m: ProviderManager)
    ensures fresh(m) && m.Valid()
    ensures m.ordering == ["filesystem", "environment"]
    ensures m.providers["environment"] == Env(DefaultEnvironment(name))
    ensures m.providers["filesystem"].Files? && m.providers["filesystem"].fs.path == DefaultPath(name, home)
    ensures m.providers["filesystem"].fs.prefix == name
  {
    m := new ProviderManager([]);
    assert m.ordering == [] && m.providers == map[];
    var fs := new Filesystem.FilesystemProvider(DefaultPath(name, home), name, world.disk);
    m.Register(Files(fs));
    m.Register(Env(DefaultEnvironment(name)));
  }

  // -------------------------------------------------------- the registry

  class ConfigurationRegistry {
    const name: string
    /** `values["super"]`: the values set with `set`. */
    var superValues: Dict
    /** `values["defaults"]` */
    var defaults: Dict
    const providers: ProviderManager

    ghost predicate Valid()
      reads this, providers
    {
      providers.Valid() && WellFormed(superValues) && LowerKeys(superValues)
    }

    /**
     * `ConfigurationRegistry(name, defaults, providers)`. Without a
     * provider list the registry gets a file provider searching
     * `DefaultPath(name, home)` for `name` and the intended default
     * environment provider; `home` is `$HOME`, "" when unset.
     */
    constructor (name: string, defaults: Dict, initial: Option<seq<Provider>>, home: string, world: World)
      ensures Valid() && fresh(providers)
      ensures this.name == name && superValues == [] && this.defaults == defaults
      ensures initial.Some? ==> providers.ordering == RegisteredNames(initial.value, |initial.value|)
      ensures initial.Some? ==> forall n :: n in providers.providers ==>
                Some(providers.providers[n]) == FirstNamed(initial.value, |initial.value|, n)
      ensures initial.None? ==> providers.ordering == ["filesystem", "environment"]
      ensures initial.None? ==> providers.providers["environment"] == Env(DefaultEnvironment(name))
      ensures initial.None? ==>
                providers.providers["filesystem"].Files? && providers.providers["filesystem"].fs.path == DefaultPath(name, home)
    ensures initial.None? ==> providers.providers["filesystem"].fs.prefix == name
    {
      this.name := name;
      superValues := [];
      this.defaults := defaults;
      if initial.Some? {
        providers := new ProviderManager(initial.value);
      } else {
        var m := DefaultProviders(name, home, world);
        providers := m;
      }
    }

    /** The sources `_merge_configs` merges, lowest precedence first. */
    function Sources(world: World): (r: seq<Result<Dict>>)
      reads this, providers, providers.Objects()
      requires Valid()
      ensures |r| == |providers.ordering| + 2
      ensures r[0] == Ok(defaults) && r[|r| - 1] == Ok(superValues)
    {
      [Ok(defaults)] + Layers(providers.InOrder(), world) + [Ok(superValues)]
    }

    /**
     * `_merge_configs()`: the defaults, then each provider in `ordering`,
     * then the set values, merged into a fresh dict; the registry's own
     * dicts are left as they are.
     */
    method MergeConfigs(world: World) returns (r: Result<Dict>)
      requires Valid()
      ensures r == MergeAll(Sources(world))
    {
      var layers := Layers(providers.InOrder(), world);
      r := MergeSources([Ok(defaults)] + layers + [Ok(superValues)]);
    }

    /** `set(key, value)`: merges the dotted key into the set values. */
    method Set(key: string, value: Value) returns (r: Result<()>)
      requires Valid()
      modifies this
      ensures Valid() && defaults == old(defaults)
      ensures r.Ok? <==> Assigned(old(superValues), key, value).Ok?
      ensures superValues == if r.Ok? then Assigned(old(superValues), key, value).value else old(superValues)
    {
      var expanded := ExpandFlattenedDict([(key, value)], ".");
      AssignedChain(key, value);
      var merged := MergeDicts(expanded.value, superValues);
      if merged.Err? {
        return Err(merged.error);
      }
      MergeShape(expanded.value, |expanded.value|, superValues);
      superValues := merged.value;
      return Ok(());
    }

    /** `set_default(key, value)`: merges the dotted key into the defaults. */
    method SetDefault(key: string, value: Value) returns (r: Result<()>)
      requires Valid()
      modifies this
      ensures Valid() && superValues == old(superValues)
      ensures r.Ok? <==> Assigned(old(defaults), key, value).Ok?
      ensures defaults == if r.Ok? then Assigned(old(defaults), key, value).value else old(defaults)
    {
      var expanded := ExpandFlattenedDict([(key, value)], ".");
      AssignedChain(key, value);
      var merged := MergeDicts(expanded.value, defaults);
      if merged.Err? {
        return Err(merged.error);
      }
      defaults := merged.value;
      return Ok(());
    }

    /** `update()`: `update_all()` on the providers; its result is dropped, its exceptions propagate. */
    method Update(world: World) returns (r: Result<()>)
      requires Valid()
      modifies providers.Objects()
      ensures Valid()
      ensures var outs := Outcomes(providers.InOrder(), world);
              var k := StopAt(outs, 0);
              r == if k < |outs| then Err(outs[k].error) else Ok(())
      ensures var ps := providers.InOrder();
              forall i :: 0 <= i < |ps| && ps[i].Files? ==>
                ps[i].fs.State() == if i <= StopAt(Outcomes(ps, world), 0)
                                    then Filesystem.AfterUpdate(ps[i].fs.path, ps[i].fs.prefix, old(ps[i].fs.State()), world.disk)
                                    else old(ps[i].fs.State())
    {
      var failed := providers.UpdateAll(world);
      if failed.Err? {
        return Err(failed.error);
      }
      return Ok(());
    }
  }

  /** The loop of `_merge_configs` over the sources read, each merged into the result so far. */
  method MergeSources(sources: seq<Result<Dict>>) returns (r: Result<Dict>)
    ensures r == MergeAll(sources)
  {
    r := Ok([]);
    assert sources[..0] == [];
    for i := 0 to |sources|
      invariant r.Ok? && r == MergeAll(sources[..i])
    {
      assert sources[..i + 1][..i] == sources[..i];
      match sources[i]
      case Err(e) =>
        MergeAllErr(sources, i + 1, |sources|);
        assert sources[..|sources|] == sources;
        return Err(e);
      case Ok(src) =>
        r := MergeDicts(src, r.value);
        if r.Err? {
          MergeAllErr(sources, i + 1, |sources|);
          assert sources[..|sources|] == sources;
          return;
        }
    }
    assert sources[..|sources|] == sources;
  }

  lemma {:induction false} MergeAllErr(sources: seq<Result<Dict>>, n: nat, m: nat)
    requires n <= m <= |sources| && MergeAll(sources[..n]).Err?
    ensures MergeAll(sources[..m]) == MergeAll(sources[..n])
    decreases m
  {
    if m > n {
      MergeAllErr(sources, n, m - 1);
      assert sources[..m][..m - 1] == sources[..m - 1];
    }
  }
}
