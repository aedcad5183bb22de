// Nested configuration dictionaries. A Python dict keeps its keys in
// insertion order, which `find_keys` and `flatten_dict` observe, so a dict
// is an association list: assignment replaces an existing key in place and
// appends a new one.
module Tree {
  import opened Wrappers
  import opened Strings
  import opened Values

  /** A dict value: a nested mapping or a non-mapping leaf. */
  datatype Node = Branch(entries: seq<(string, Node)>) | Leaf(value: Value)

  /** A nested dict. */
  type Dict = seq<(string, Node)>

  /** A flattened dict: dotted keys to leaf values. */
  type FlatDict = seq<(string, Value)>

  function Keys<V>(d: seq<(string, V)>): (r: seq<string>)
    ensures |r| == |d| && forall i :: 0 <= i < |d| ==> r[i] == d[i].0
  {
    if d == [] then [] else [d[0].0] + Keys(d[1..])
  }

  /** `d.get(k)` */
  function Get<V>(d: seq<(string, V)>, k: string): (r: Option<V>)
    ensures r.None? <==> k !in Keys(d)
    ensures r.Some? ==> (k, r.value) in d
  {
    if d == [] then None else if d[0].0 == k then Some(d[0].1) else Get(d[1..], k)
  }

  /** `d[k] = v` */
  function Set<V>(d: seq<(string, V)>, k: string, v: V): seq<(string, V)>
  {
    if d == [] then [(k, v)]
    else if d[0].0 == k then [(k, v)] + d[1..]
    else [d[0]] + Set(d[1..], k, v)
  }

  lemma {:induction false} GetSet<V>(d: seq<(string, V)>, k: string, v: V, k2: string)
    ensures Get(Set(d, k, v), k2) == if k == k2 then Some(v) else Get(d, k2)
  {
    if d != [] && d[0].0 != k {
      GetSet(d[1..], k, v, k2);
    }
  }

  /** Assignment keeps the key order and appends a new key at the end. */
  lemma {:induction false} SetKeys<V>(d: seq<(string, V)>, k: string, v: V)
    ensures Keys(Set(d, k, v)) == if k in Keys(d) then Keys(d) else Keys(d) + [k]
  {
    if d != [] && d[0].0 != k {
      SetKeys(d[1..], k, v);
      assert Keys(d) == [d[0].0] + Keys(d[1..]);
    }
  }

  /** Assigning the value a key already has changes nothing. */
  lemma {:induction false} SetSame<V>(d: seq<(string, V)>, k: string, v: V)
    requires Get(d, k) == Some(v)
    ensures Set(d, k, v) == d
  {
    if d[0].0 != k {
      SetSame(d[1..], k, v);
    }
  }

  predicate DistinctKeys<V>(d: seq<(string, V)>)
  {
    forall i, j :: 0 <= i < j < |d| ==> d[i].0 != d[j].0
  }

  lemma SetDistinct<V>(d: seq<(string, V)>, k: string, v: V)
    requires DistinctKeys(d)
    ensures DistinctKeys(Set(d, k, v))
  {
    SetKeys(d, k, v);
    var r := Set(d, k, v);
    assert forall i :: 0 <= i < |r| ==> r[i].0 == Keys(r)[i];
  }

  /** A dict whose nested dicts, at every level, have distinct keys. */
  predicate WellFormed(d: Dict)
    decreases Branch(d)
  {
    DistinctKeys(d) && forall i :: 0 <= i < |d| && d[i].1.Branch? ==> WellFormed(d[i].1.entries)
  }

  /** Every key, at every level, is lower case. */
  predicate LowerKeys(d: Dict)
    decreases Branch(d)
  {
    (forall i :: 0 <= i < |d| ==> IsLowerCase(d[i].0))
    && forall i :: 0 <= i < |d| && d[i].1.Branch? ==> LowerKeys(d[i].1.entries)
  }

  /** The keys of every nested dict stay distinct after lower-casing. */
  predicate LowerDistinct(d: Dict)
    decreases Branch(d)
  {
    (forall i, j :: 0 <= i < j < |d| ==> Lower(d[i].0) != Lower(d[j].0))
    && forall i :: 0 <= i < |d| && d[i].1.Branch? ==> LowerDistinct(d[i].1.entries)
  }

  /** The leaf value found by following `path` from `d`, if the path ends at a leaf. */
  function LeafAt(d: Dict, path: seq<string>): Option<Value>
    requires |path| > 0
    decreases |path|
  {
    match Get<Node>(d, path[0])
    case None => None
    case Some(Leaf(v)) => if |path| == 1 then Some(v) else None
    case Some(Branch(t)) => if |path| == 1 then None else LeafAt(t, path[1..])
  }

  /** The node found by following `path` from the top of `d`. */
  function NodeAt(d: Dict, path: seq<string>): Option<Node>
    requires |path| > 0
    decreases |path|
  {
    match Get<Node>(d, path[0])
    case None => None
    case Some(n) =>
      if |path| == 1 then Some(n)
      else if n.Branch? then NodeAt(n.entries, path[1..])
      else None
  }

  /** The nested node that holds `v` at the end of `path`. */
  function Chain(path: seq<string>, v: Value): Node
  {
    if path == [] then Leaf(v) else Branch([(path[0], Chain(path[1..], v))])
  }

  lemma {:induction false} LeafAtChain(path: seq<string>, v: Value, x: seq<string>)
    requires |path| > 0 && |x| > 0
    ensures LeafAt([(path[0], Chain(path[1..], v))], x) == if x == path then Some(v) else None
    decreases |path|
  {
    if x[0] == path[0] && |path| > 1 && |x| > 1 {
      LeafAtChain(path[1..], v, x[1..]);
      if x[1..] == path[1..] {
        assert x == [x[0]] + x[1..] && path == [path[0]] + path[1..];
      }
    }
  }

  /** The leaves of `d[i..]` with their paths, depth first in key order. */
  function LeavesFrom(d: Dict, i: nat): seq<(seq<string>, Value)>
    requires i <= |d|
    decreases Branch(d), |d| - i
  {
    if i == |d| then []
    else
      var here := match d[i].1
        case Leaf(v) => [([d[i].0], v)]
        case Branch(sub) => Under(d[i].0, LeavesFrom(sub, 0));
      here + LeavesFrom(d, i + 1)
  }

  /** Each path in `ls` extended in front by `k`. */
  function Under(k: string, ls: seq<(seq<string>, Value)>): (r: seq<(seq<string>, Value)>)
    ensures |r| == |ls| && forall j :: 0 <= j < |ls| ==> r[j] == ([k] + ls[j].0, ls[j].1)
  {
    if ls == [] then [] else [([k] + ls[0].0, ls[0].1)] + Under(k, ls[1..])
  }

  /** The leaves of `d` with their paths, depth first in key order. */
  function Leaves(d: Dict): seq<(seq<string>, Value)>
  {
    LeavesFrom(d, 0)
  }
}
