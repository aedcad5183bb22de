// The tree codec of cfitall/utils.py: building a tree from dotted keys,
// deep-merging trees, and flattening a tree back into dotted keys.
// Dicts are values here: an operation that updates a dict in place returns
// the updated dict instead.
module Utils {
  import opened Wrappers
  import opened Strings
  import opened Values
  import opened Tree

  // ------------------------------------------------------------ add_keys

  /** `add_keys(dest, keys, value)` */
  function AddKeys(dest: Dict, keys: seq<string>, value: Value := Null): Dict
    requires |keys| > 0
    decreases |keys|
  {
    if |keys| > 1 then Set(dest, keys[0], Branch(AddKeys([], keys[1..], value)))
    else Set(dest, keys[0], Leaf(value))
  }

  /**
   * `add_keys(dest, keys, value)` (re)binds the first key to a fresh chain of
   * nested dicts along the remaining keys, ending in `value`; every other
   * key of `dest` keeps its value and its place.
   */
  lemma {:induction false} AddKeysBinds(dest: Dict, keys: seq<string>, value: Value)
    requires |keys| > 0
    ensures Get(AddKeys(dest, keys, value), keys[0]) == Some(Chain(keys[1..], value))
    ensures forall k :: k != keys[0] ==> Get(AddKeys(dest, keys, value), k) == Get(dest, k)
    ensures Keys(AddKeys(dest, keys, value)) ==
              if keys[0] in Keys(dest) then Keys(dest) else Keys(dest) + [keys[0]]
    decreases |keys|
  {
    var node := if |keys| > 1 then Branch(AddKeys([], keys[1..], value)) else Leaf(value);
    if |keys| > 1 {
      var t := AddKeys([], keys[1..], value);
      AddKeysBinds([], keys[1..], value);
      assert |t| == 1 && t[0].0 == keys[1];
      assert Get(t, keys[1]) == Some(t[0].1);
      assert t == [(keys[1], Chain(keys[2..], value))];
    }
    assert node == Chain(keys[1..], value);
    forall k {
      GetSet(dest, keys[0], node, k);
    }
    SetKeys(dest, keys[0], node);
  }

  /** A one-element key list binds the key to the value itself. */
  lemma AddKeysSingle(dest: Dict, key: string)
    ensures AddKeys(dest, [key]) == Set(dest, key, Leaf(Null))
    ensures Get(AddKeys(dest, [key]), key) == Some(Leaf(Null))
  {
    GetSet(dest, key, Leaf(Null), key);
  }

  /** `expand_flattened_path(path, separator, value)`; `str.split` rejects an empty separator. */
  function ExpandFlattenedPath(path: string, separator: string := ".", value: Value := Null): Result<Dict>
  {
    if |separator| == 0 then Err(ValueError)
    else Ok(AddKeys([], Split(path, separator), value))
  }

  /**
   * `expand_flattened_path(path, sep, value)` is the chain of nested dicts
   * along `path.split(sep)`, empty pieces included, with `value` as its one
   * leaf.
   */
  lemma ExpandFlattenedPathChain(path: string, separator: string, value: Value)
    requires separator != []
    ensures ExpandFlattenedPath(path, separator, value) ==
              Ok([(Split(path, separator)[0], Chain(Split(path, separator)[1..], value))])
  {
    var keys := Split(path, separator);
    var t := AddKeys([], keys, value);
    AddKeysBinds([], keys, value);
    assert |t| == 1 && t[0].0 == keys[0];
    assert Get(t, keys[0]) == Some(t[0].1);
  }

  // ----------------------------------------------------------- find_keys

  /** `find_keys` over the entries of `d` from position `i` on. */
  function FindKeysFrom(d: Dict, v: Value, i: nat): Option<seq<string>>
    requires i <= |d|
    decreases Branch(d), |d| - i
  {
    if i == |d| then None
    else match d[i].1
      case Branch(sub) =>
        (match FindKeysFrom(sub, v, 0)
         case Some(p) => Some([d[i].0] + p)
         case None => FindKeysFrom(d, v, i + 1))
      case Leaf(x) => if PyEq(x, v) then Some([d[i].0]) else FindKeysFrom(d, v, i + 1)
  }

  /** `find_keys(d, v)`: the key path of the first leaf, depth first, that equals `v` in Python's sense. */
  function FindKeys(d: Dict, v: Value): Option<seq<string>>
  {
    FindKeysFrom(d, v, 0)
  }

  // ------------------------------------------------------ extract_values

  /**
   * `extract_values` over the entries of `d` from position `i` on, with the
   * list `acc` collected so far. The nested calls append to the same list.
   */
  function ExtractFrom(d: Dict, i: nat, acc: seq<Value>): Result<seq<Value>>
    requires i <= |d|
    decreases Branch(d), |d| - i
  {
    if i == |d| then Ok(acc)
    else match d[i].1
      case Branch(sub) =>
        (match ExtractFrom(sub, 0, acc)
         case Err(e) => Err(e)
         case Ok(acc') => ExtractFrom(d, i + 1, acc'))
      case Leaf(x) =>
        if Contains(acc, x) then ExtractFrom(d, i + 1, acc)
        else if x.List? then
          (match JoinValues(x.items, ",")
           case Err(e) => Err(e)
           case Ok(s) => ExtractFrom(d, i + 1, acc + [Str(s)]))
        else ExtractFrom(d, i + 1, acc + [x])
  }

  /**
   * `extract_values(d)` on a fresh list: the leaf values without repeats
   * (by Python `==`), lists joined with ",".
   */
  function ExtractValues(d: Dict): Result<seq<Value>>
  {
    ExtractFrom(d, 0, [])
  }

  // -------------------------------------------------------- flatten_dict

  /** A string with a comma before its first newline, replaced by its `split(',')` list. */
  function CommaSplit(v: Value): Value
  {
    if v.Str? && HasCommaBeforeNewline(v.s) then List(Strs(Split(v.s, ","))) else v
  }

  /** One iteration of the loop of `flatten_dict` as written. */
  function FlattenStep(nested: Dict, separator: string, acc: FlatDict, value: Value): Result<FlatDict>
  {
    var w := CommaSplit(value);
    match FindKeys(nested, w)
    case None => Err(TypeError)   // separator.join(None)
    case Some(path) =>
      if w.List? then
        (match JoinValues(w.items, ",")
         case Err(e) => Err(e)
         case Ok(s) => Ok(Set(acc, Join(path, separator), Str(s))))
      else Ok(Set(acc, Join(path, separator), w))
  }

  /** The first `n` iterations of the loop of `flatten_dict` as written. */
  function FlattenSteps(nested: Dict, separator: string, values: seq<Value>, n: nat): Result<FlatDict>
    requires n <= |values|
  {
    if n == 0 then Ok([])
    else match FlattenSteps(nested, separator, values, n - 1)
      case Err(e) => Err(e)
      case Ok(acc) => FlattenStep(nested, separator, acc, values[n - 1])
  }

  /**
   * `flatten_dict(nested, separator)` as written: each extracted value is
   * filed under the path of the first leaf equal to it.
   */
  function FlattenAsWritten(nested: Dict, separator: string := "."): Result<FlatDict>
  {
    match ExtractValues(nested)
    case Err(e) => Err(e)
    case Ok(values) => FlattenSteps(nested, separator, values, |values|)
  }

  method FlattenDict(nested: Dict, separator: string := ".") returns (r: Result<FlatDict>)
    ensures r == FlattenAsWritten(nested, separator)
  {
    var extracted := ExtractValues(nested);
    if extracted.Err? {
      return Err(extracted.error);
    }
    var values := extracted.value;
    var flattened: FlatDict := [];
    var i := 0;
    while i < |values|
      invariant 0 <= i <= |values|
      invariant FlattenSteps(nested, separator, values, i) == Ok(flattened)
    {
      var next := FlattenStep(nested, separator, flattened, values[i]);
      if next.Err? {
        FlattenStepsErr(nested, separator, values, i + 1, |values|);
        return next;
      }
      flattened := next.value;
      i := i + 1;
    }
    return Ok(flattened);
  }

  lemma {:induction false} FlattenStepsErr(nested: Dict, separator: string, values: seq<Value>, n: nat, m: nat)
    requires n <= m <= |values| && FlattenSteps(nested, separator, values, n).Err?
    ensures FlattenSteps(nested, separator, values, m) == FlattenSteps(nested, separator, values, n)
    decreases m
  {
    if m > n {
      FlattenStepsErr(nested, separator, values, n, m - 1);
    }
  }

  /**
   * The flattening the docstring of `flatten_dict` describes: each leaf,
   * depth first, is filed under its key path joined with `separator`.
   */
  function Flatten(nested: Dict, separator: string := "."): FlatDict
  {
    FlatFold(Leaves(nested), |Leaves(nested)|, separator)
  }

  function FlatFold(ls: seq<(seq<string>, Value)>, n: nat, separator: string): FlatDict
    requires n <= |ls|
  {
    if n == 0 then [] else Set(FlatFold(ls, n - 1, separator), Join(ls[n - 1].0, separator), ls[n - 1].1)
  }

  // --------------------------------------------------------- merge_dicts

  /** The dict held at a key, as `setdefault(key, {})` sees it when it is not a leaf. */
  function SubDict(n: Option<Node>): Dict
  {
    match n
    case Some(Branch(t)) => t
    case _ => []
  }

  /**
   * One iteration of the loop of `merge_dicts`, with the source key already
   * lower-cased. A leaf is assigned. A nested dict is merged into the dict
   * at the key, created if absent; when the destination holds a leaf there,
   * the first entry of the nested dict fails on it: `setdefault` is not an
   * attribute of a leaf, and item assignment is a TypeError.
   */
  function MergeEntry(acc: Dict, key: string, node: Node): Result<Dict>
    decreases node, if node.Branch? then |node.entries| + 1 else 0
  {
    match node
    case Leaf(_) => Ok(Set(acc, key, node))
    case Branch(sub) =>
      match Get<Node>(acc, key)
      case Some(Leaf(_)) =>
        if sub == [] then Ok(acc)
        else Err(if sub[0].1.Branch? then AttributeError else TypeError)
      case existing =>
        match MergePrefix(sub, |sub|, SubDict(existing))
        case Err(e) => Err(e)
        case Ok(t) => Ok(Set(acc, key, Branch(t)))
  }

  /** The first `n` iterations of the loop of `merge_dicts(src, dst)`. */
  function MergePrefix(src: Dict, n: nat, dst: Dict): Result<Dict>
    requires n <= |src|
    decreases Branch(src), n
  {
    if n == 0 then Ok(dst)
    else match MergePrefix(src, n - 1, dst)
      case Err(e) => Err(e)
      case Ok(acc) => MergeEntry(acc, Lower(src[n - 1].0), src[n - 1].1)
  }

  /** `merge_dicts(source, destination)`: the updated destination, or the exception raised. */
  function Merge(source: Dict, destination: Dict): Result<Dict>
  {
    MergePrefix(source, |source|, destination)
  }

  lemma {:induction false} MergePrefixErr(src: Dict, n: nat, m: nat, dst: Dict)
    requires n <= m <= |src| && MergePrefix(src, n, dst).Err?
    ensures MergePrefix(src, m, dst) == MergePrefix(src, n, dst)
    decreases m
  {
    if m > n {
      MergePrefixErr(src, n, m - 1, dst);
    }
  }

  lemma MergePrefixNext(src: Dict, i: nat, dst: Dict, acc: Dict)
    requires i < |src| && MergePrefix(src, i, dst) == Ok(acc)
    ensures MergePrefix(src, i + 1, dst) == MergeEntry(acc, Lower(src[i].0), src[i].1)
  {
  }

  method MergeDicts(source: Dict, destination: Dict) returns (r: Result<Dict>)
    ensures r == Merge(source, destination)
    decreases Branch(source)
  {
    var acc := destination;
    var i := 0;
    while i < |source|
      invariant 0 <= i <= |source|
      invariant MergePrefix(source, i, destination) == Ok(acc)
    {
      var key := Lower(source[i].0);
      var value := source[i].1;
      MergePrefixNext(source, i, destination, acc);
      if value.Leaf? {
        acc := Set(acc, key, value);
      } else {
        var sub := value.entries;
        var node := Get(acc, key);
        if node.Some? && node.value.Leaf? {
          if sub != [] {
            r := Err(if sub[0].1.Branch? then AttributeError else TypeError);
            MergePrefixErr(source, i + 1, |source|, destination);
            return;
          }
        } else {
          assert value == Branch(sub);
          var merged := MergeDicts(sub, SubDict(node));
          if merged.Err? {
            r := Err(merged.error);
            MergePrefixErr(source, i + 1, |source|, destination);
            return;
          }
          acc := Set(acc, key, Branch(merged.value));
        }
      }
      i := i + 1;
    }
    r := Ok(acc);
  }

  // ----------------------------------------------- expand_flattened_dict

  /**
   * One iteration of the loop of `expand_flattened_dict`: the entry is
   * expanded into a one-path tree, and the result so far is merged INTO that
   * tree, so an earlier entry wins over a later one.
   */
  function ExpandStep(merged: Dict, key: string, value: Value, separator: string): Result<Dict>
  {
    match ExpandFlattenedPath(key, separator, CommaSplit(value))
    case Err(e) => Err(e)
    case Ok(expanded) => Merge(merged, expanded)
  }

  /** The first `n` iterations of the loop of `expand_flattened_dict`. */
  function ExpandPrefix(flattened: FlatDict, n: nat, separator: string): Result<Dict>
    requires n <= |flattened|
  {
    if n == 0 then Ok([])
    else match ExpandPrefix(flattened, n - 1, separator)
      case Err(e) => Err(e)
      case Ok(merged) => ExpandStep(merged, flattened[n - 1].0, flattened[n - 1].1, separator)
  }

  /** `expand_flattened_dict(flattened, separator)` */
  function ExpandFlattened(flattened: FlatDict, separator: string := "."): Result<Dict>
  {
    ExpandPrefix(flattened, |flattened|, separator)
  }

  lemma ExpandPrefixNext(flattened: FlatDict, i: nat, separator: string, merged: Dict)
    requires i < |flattened| && ExpandPrefix(flattened, i, separator) == Ok(merged)
    ensures ExpandPrefix(flattened, i + 1, separator)
      == ExpandStep(merged, flattened[i].0, flattened[i].1, separator)
  {
  }

  lemma {:induction false} ExpandPrefixErr(flattened: FlatDict, n: nat, m: nat, separator: string)
    requires n <= m <= |flattened| && ExpandPrefix(flattened, n, separator).Err?
    ensures ExpandPrefix(flattened, m, separator) == ExpandPrefix(flattened, n, separator)
    decreases m
  {
    if m > n {
      ExpandPrefixErr(flattened, n, m - 1, separator);
    }
  }

  method ExpandFlattenedDict(flattened: FlatDict, separator: string) returns (r: Result<Dict>)
    ensures r == ExpandFlattened(flattened, separator)
  {
    var merged: Dict := [];
    var i := 0;
    while i < |flattened|
      invariant 0 <= i <= |flattened|
      invariant ExpandPrefix(flattened, i, separator) == Ok(merged)
    {
      var next := ExpandEntry(merged, flattened[i].0, flattened[i].1, separator);
      ExpandPrefixNext(flattened, i, separator, merged);
      if next.Err? {
        ExpandPrefixErr(flattened, i + 1, |flattened|, separator);
        return next;
      }
      merged := next.value;
      i := i + 1;
    }
    return Ok(merged);
  }

  /** A one-entry dict expands to the tree of its one path. */
  lemma ExpandOne(key: string, value: Value, separator: string)
    requires separator != []
    ensures ExpandFlattened([(key, value)], separator) == ExpandFlattenedPath(key, separator, CommaSplit(value))
  {
    var expanded := ExpandFlattenedPath(key, separator, CommaSplit(value)).value;
    assert ExpandPrefix([(key, value)], 1, separator) == Merge([], expanded);
  }

  /** The body of the loop of `expand_flattened_dict`. */
  method ExpandEntry(merged: Dict, key: string, value: Value, separator: string) returns (r: Result<Dict>)
    ensures r == ExpandStep(merged, key, value, separator)
  {
    var v := CommaSplit(value);
    var expanded := ExpandFlattenedPath(key, separator, v);
    if expanded.Err? {
      return Err(expanded.error);
    }
    r := MergeDicts(merged, expanded.value);
  }
}
