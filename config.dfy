// The legacy ConfigManager of cfitall/config.py: fixed sources merged in
// the order defaults, configuration file, environment, set values; its own
// environment reader, which splits comma lists; and a typed `get`.
module Config {
  import opened Wrappers
  import opened Strings
  import opened Values
  import opened Tree
  import opened Utils
  import opened Sorting
  import opened MergeProperties
  import Environment
  import Registry

  /** The environment settings of a manager: `env_prefix`, `env_path_sep`, `env_value_split`, `env_bool`. */
  datatype EnvSettings = EnvSettings(prefix: string, pathSep: string, valueSplit: bool, castBool: bool)

  /** `env_prefix + env_path_sep`: the start of every variable the manager reads. */
  function VarPrefix(s: EnvSettings): string
  {
    s.prefix + s.pathSep
  }

  /** The configuration key a variable name stands for, if it starts with the prefix. */
  function VarKey(s: EnvSettings, name: string): Option<string>
  {
    if StartsWith(name, VarPrefix(s)) then Some(Lower(name[|VarPrefix(s)|..])) else None
  }

  /**
   * The value stored for a variable's text: with `env_value_split`, a
   * comma before any newline splits it on every comma (nothing is
   * trimmed); with `env_bool`, "true" and "false" in any case become
   * booleans, item by item in a list.
   */
  function ParseVar(s: EnvSettings, raw: string): Value
  {
    var v := if s.valueSplit then CommaSplit(Str(raw)) else Str(raw);
    if s.castBool then Environment.CastBool(v) else v
  }

  /** The dotted-key dict `_read_environment` fills from the first `n` variables. */
  function ReadPrefix(s: EnvSettings, environ: seq<(string, string)>, n: nat): FlatDict
    requires n <= |environ|
  {
    if n == 0 then []
    else
      var acc := ReadPrefix(s, environ, n - 1);
      match VarKey(s, environ[n - 1].0)
      case None => acc
      case Some(k) => Set(acc, k, ParseVar(s, environ[n - 1].1))
  }

  /** `_read_environment()`: the variables read, expanded on `env_path_sep`. */
  function EnvDict(s: EnvSettings, environ: seq<(string, string)>): Result<Dict>
  {
    ExpandFlattened(ReadPrefix(s, environ, |environ|), s.pathSep)
  }

  /** `_read_environment()` */
  method ReadEnvironment(s: EnvSettings, environ: seq<(string, string)>) returns (r: Result<Dict>)
    ensures r == EnvDict(s, environ)
  {
    var output: FlatDict := [];
    var prefix := s.prefix + s.pathSep;
    for i := 0 to |environ|
      invariant output == ReadPrefix(s, environ, i)
    {
      var (key, value) := environ[i];
      if StartsWith(key, prefix) {
        key := Lower(key[|prefix|..]);
        var v := Str(value);
        if s.valueSplit && HasCommaBeforeNewline(value) {
          v := List(Strs(Split(value, ",")));
        }
        if s.castBool {
          v := Environment.CastBool(v);
        }
        output := Set(output, key, v);
      }
    }
    r := ExpandFlattenedDict(output, s.pathSep);
  }

  /** Reference: the parsed value of the last of the first `n` variables standing for `k`. */
  function LastVar(s: EnvSettings, environ: seq<(string, string)>, n: nat, k: string): Option<Value>
    requires n <= |environ|
  {
    if n == 0 then None
    else if VarKey(s, environ[n - 1].0) == Some(k) then Some(ParseVar(s, environ[n - 1].1))
    else LastVar(s, environ, n - 1, k)
  }

  /**
   * The dotted-key dict holds, under `k`, the parsed value of the last
   * variable standing for `k`, and nothing for a key no variable stands
   * for.
   */
  lemma {:induction false} ReadPrefixGet(s: EnvSettings, environ: seq<(string, string)>, n: nat, k: string)
    requires n <= |environ|
    ensures Get(ReadPrefix(s, environ, n), k) == LastVar(s, environ, n, k)
  {
    if n > 0 {
      ReadPrefixGet(s, environ, n - 1, k);
      match VarKey(s, environ[n - 1].0)
      case None =>
      case Some(k') => GetSet(ReadPrefix(s, environ, n - 1), k', ParseVar(s, environ[n - 1].1), k);
    }
  }

  /** A join of two or more items whose first has no newline has a comma before any newline. */
  lemma JoinHasComma(items: seq<string>)
    requires |items| >= 2 && '\n' !in items[0]
    ensures HasCommaBeforeNewline(Join(items, ","))
  {
    var text := Join(items, ",");
    assert text == items[0] + "," + Join(items[1..], ",");
    assert text[|items[0]|] == ',' && text[..|items[0]|] == items[0];
    HasCommaBeforeNewlineIff(text);
  }

  /**
   * A list written out by `get(key, rtype=str)` reads back from the
   * environment as that list: the join with "," is split on ",".
   */
  lemma JoinReadBack(s: EnvSettings, items: seq<string>)
    requires s.valueSplit && !s.castBool && |items| >= 2
    requires forall j :: 0 <= j < |items| ==> ',' !in items[j] && '\n' !in items[j]
    ensures Convert(List(Strs(items)), AsStr) == Returned(Str(Join(items, ",")))
    ensures ParseVar(s, Join(items, ",")) == List(Strs(items))
  {
    JoinHasComma(items);
    assert "," == [','];
    SplitJoin(items, ',');
    JoinValuesStrs(items, ",");
  }

  /** The variable `env_vars` names for a flattened key. */
  function VarName(s: EnvSettings, key: string): string
  {
    VarPrefix(s) + ReplaceChar(Upper(key), '.', s.pathSep)
  }

  function VarNames(s: EnvSettings, keys: seq<string>): (r: seq<string>)
    ensures |r| == |keys| && forall i :: 0 <= i < |keys| ==> r[i] == VarName(s, keys[i])
  {
    seq(|keys|, i requires 0 <= i < |keys| => VarName(s, keys[i]))
  }

  /** `env_vars`: a variable name for each flattened key, sorted. */
  function EnvVars(merged: Result<Dict>, s: EnvSettings): (r: Result<seq<string>>)
  {
    match merged
    case Err(e) => Err(e)
    case Ok(t) => Ok(Sort(VarNames(s, Keys(Flatten(t)))))
  }

  /** `env_vars` is sorted and names one variable for each flattened key. */
  lemma EnvVarsNames(merged: Result<Dict>, s: EnvSettings)
    requires merged.Ok?
    ensures Sorted(EnvVars(merged, s).value)
    ensures multiset(EnvVars(merged, s).value) == multiset(VarNames(s, Keys(Flatten(merged.value))))
  {
  }

  /**
   * The manager reads each variable `env_vars` names for a lower-case key
   * back under that key, its dots turned into the path separator.
   */
  lemma VarNameReadBack(s: EnvSettings, key: string)
    requires IsLowerCase(key) && IsLowerCase(s.pathSep)
    ensures VarKey(s, VarName(s, key)) == Some(ReplaceChar(key, '.', s.pathSep))
  {
    var name := VarName(s, key);
    assert name[..|VarPrefix(s)|] == VarPrefix(s);
    assert name[|VarPrefix(s)|..] == ReplaceChar(Upper(key), '.', s.pathSep);
    LowerReplace(Upper(key), '.', s.pathSep);
    LowerUpper(key);
    LowerIsLowerCase(key);
    LowerIsLowerCase(s.pathSep);
  }

  /**
   * `config_keys` is the registry's sorted list of flattened keys: it raises
   * what merging raises, and otherwise is sorted and lists exactly the keys
   * for which `get` finds a value.
   */
  lemma ConfigKeysFound(merged: Result<Dict>, key: string)
    ensures merged.Err? ==> Registry.ConfigKeys(merged) == Err(merged.error) && GetTyped(merged, key) == Raised(merged.error)
    ensures merged.Ok? ==> Sorted(Registry.ConfigKeys(merged).value)
    ensures merged.Ok? ==>
              (key in Registry.ConfigKeys(merged).value <==> GetTyped(merged, key).Returned? && GetTyped(merged, key).value.Some?)
  {
    if merged.Ok? {
      Registry.ConfigKeysFound(merged, key);
    }
  }

  // ----------------------------------------------------------- typed get

  /** The `rtype` argument of `get`; Decimal and float are not modelled. */
  datatype ReturnType = AsIs | AsList | AsStr | AsInt

  /** The conversion `get` applies to a value found. */
  function Convert(v: Value, rtype: ReturnType): Outcome<Value>
  {
    match rtype
    case AsIs => Returned(v)
    case AsList =>
      (match ListOf(v) case Ok(xs) => Returned(List(xs)) case Err(e) => Raised(e))
    case AsStr =>
      if v.List? then
        (match JoinValues(v.items, ",") case Ok(t) => Returned(Str(t)) case Err(e) => Raised(e))
      else
        (match StrOf(v) case Returned(t) => Returned(Str(t)) case Raised(e) => Raised(e) case Unmodelled => Unmodelled)
    case AsInt =>
      match IntOf(v) case Returned(n) => Returned(Int(n)) case Raised(e) => Raised(e) case Unmodelled => Unmodelled
  }

  /** `get(key, rtype)`: None for a missing key; only a KeyError is caught. */
  function GetTyped(merged: Result<Dict>, key: string, rtype: ReturnType := AsIs): Outcome<Option<Value>>
  {
    match Registry.Lookup(merged, key)
    case Err(e) => Raised(e)
    case Ok(None) => Returned(None)
    case Ok(Some(v)) =>
      match Convert(v, rtype)
      case Returned(w) => Returned(Some(w))
      case Raised(e) => Raised(e)
      case Unmodelled => Unmodelled
  }

  /**
   * What `rtype` list and str make of the value found: a copy of a list;
   * the characters of a string; the comma join of a list of strings, a
   * TypeError when an item is not a string.
   */
  lemma ConvertListStr(v: Value)
    ensures v.List? ==> Convert(v, AsList) == Returned(v)
    ensures v.Str? ==> Convert(v, AsList) == Returned(List(ListOf(v).value)) && Convert(v, AsStr) == Returned(v)
    ensures v.List? && (forall k :: 0 <= k < |v.items| ==> v.items[k].Str?) ==>
              Convert(v, AsStr) == Returned(Str(Join(seq(|v.items|, k requires 0 <= k < |v.items| => v.items[k].s), ",")))
    ensures v.List? && (exists k :: 0 <= k < |v.items| && !v.items[k].Str?) ==> Convert(v, AsStr) == Raised(TypeError)
  {
  }

  /** `rtype=int` turns a decimal string or a boolean into its integer. */
  lemma ConvertInt(v: Value, n: int)
    ensures v == Str(ShowInt(n)) ==> Convert(v, AsInt) == Returned(Int(n))
    ensures v.Bool? ==> Convert(v, AsInt) == Returned(Int(if v.b then 1 else 0))
  {
    if v == Str(ShowInt(n)) {
      IntOfShowInt(n);
      ConvertIntOf(v, n);
    }
    if v.Bool? {
      ConvertIntOf(v, if v.b then 1 else 0);
    }
  }

  lemma ConvertIntOf(v: Value, n: int)
    requires IntOf(v) == Returned(n)
    ensures Convert(v, AsInt) == Returned(Int(n))
  {
  }

  /** `get` of a missing key is None whatever the return type. */
  lemma GetMissing(merged: Result<Dict>, key: string, rtype: ReturnType)
    requires merged.Ok? && key !in Keys(Flatten(merged.value))
    ensures GetTyped(merged, key, rtype) == Returned(None)
  {
  }

  // ------------------------------------------------------------ manager

  class ConfigManager {
    const name: string
    const env: EnvSettings
    /** `config_file`: set only by `read_config`, which is not modelled. */
    var configFile: Option<string>
    var configPath: seq<string>
    /** `values['super']` */
    var superValues: Dict
    /** `values['cfgfile']`: filled only by `read_config`. */
    var cfgfile: Dict
    /** `values['defaults']` */
    var defaults: Dict

    ghost predicate Valid()
      reads this
    {
      WellFormed(superValues) && LowerKeys(superValues)
    }

    /**
     * `ConfigManager(name, env_prefix, env_path_sep, env_value_split,
     * env_bool, defaults)`: a non-empty `env_prefix` is upper-cased,
     * otherwise the upper-cased name is the prefix.
     */
    constructor (name: string, envPrefix: Option<string> := None, envPathSep: string := "__",
                 envValueSplit: bool := true, envBool: bool := true, defaults: Dict := [])
      ensures Valid()
      ensures this.name == name && this.defaults == defaults
      ensures env.prefix == if envPrefix.Some? && envPrefix.value != "" then Upper(envPrefix.value) else Upper(name)
      ensures env.pathSep == envPathSep && env.valueSplit == envValueSplit && env.castBool == envBool
      ensures configFile.None? && configPath == [] && superValues == [] && cfgfile == []
    {
      this.name := name;
      configFile := None;
      configPath := [];
      superValues := [];
      cfgfile := [];
      this.defaults := defaults;
      var prefix := if envPrefix.Some? && envPrefix.value != "" then Upper(envPrefix.value) else Upper(name);
      env := EnvSettings(prefix, envPathSep, envValueSplit, envBool);
    }

    /** The sources `_merge_configs` merges, lowest precedence first. */
    function Sources(environ: seq<(string, string)>): (r: seq<Result<Dict>>)
      reads this
      ensures |r| == 4 && r[0] == Ok(defaults) && r[1] == Ok(cfgfile) && r[3] == Ok(superValues)
      ensures r[2] == EnvDict(env, environ)
    {
      [Ok(defaults), Ok(cfgfile), EnvDict(env, environ), Ok(superValues)]
    }

    /** `_merge_configs()`: the four sources merged into a fresh dict. */
    method MergeConfigs(environ: seq<(string, string)>) returns (r: Result<Dict>)
      ensures r == Registry.MergeAll(Sources(environ))
    {
      var fromEnv := ReadEnvironment(env, environ);
      r := Registry.MergeSources([Ok(defaults), Ok(cfgfile), fromEnv, Ok(superValues)]);
    }

    /** `add_config_path(path)` */
    method AddConfigPath(path: string)
      modifies this
      ensures configPath == old(configPath) + [path]
      ensures superValues == old(superValues) && cfgfile == old(cfgfile) && defaults == old(defaults)
      ensures configFile == old(configFile)
    {
      configPath := configPath + [path];
    }

    /** `set(key, value)`: merges the dotted key into the set values. */
    method Set(key: string, value: Value) returns (r: Result<()>)
      requires Valid()
      modifies this
      ensures Valid() && defaults == old(defaults) && cfgfile == old(cfgfile) && configPath == old(configPath)
      ensures configFile == old(configFile)
      ensures r.Ok? <==> Registry.Assigned(old(superValues), key, value).Ok?
      ensures superValues == if r.Ok? then Registry.Assigned(old(superValues), key, value).value else old(superValues)
    {
      var expanded := ExpandFlattenedDict([(key, value)], ".");
      Registry.AssignedChain(key, value);
      var merged := MergeDicts(expanded.value, superValues);
      if merged.Err? {
        return Err(merged.error);
      }
      MergeShape(expanded.value, |expanded.value|, superValues);
      superValues := merged.value;
      return Ok(());
    }

    /** `set_default(key, value)`: merges the dotted key into the defaults. */
    method SetDefault(key: string, value: Value) returns (r: Result<()>)
      requires Valid()
      modifies this
      ensures Valid() && superValues == old(superValues) && cfgfile == old(cfgfile) && configPath == old(configPath)
      ensures configFile == old(configFile)
      ensures r.Ok? <==> Registry.Assigned(old(defaults), key, value).Ok?
      ensures defaults == if r.Ok? then Registry.Assigned(old(defaults), key, value).value else old(defaults)
    {
      var expanded := ExpandFlattenedDict([(key, value)], ".");
      Registry.AssignedChain(key, value);
      var merged := MergeDicts(expanded.value, defaults);
      if merged.Err? {
        return Err(merged.error);
      }
      defaults := merged.value;
      return Ok(());
    }
  }
}
