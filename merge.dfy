// What `merge_dicts(source, destination)` guarantees about the merged
// tree: which keys it leaves alone, what a lookup finds afterwards, when it
// raises, and that merging the same source twice changes nothing more.
module MergeProperties {
  import opened Wrappers
  import opened Strings
  import opened Values
  import opened Tree
  import opened Utils

  /** The node of the LAST entry of `src` whose key lower-cases to `k`. */
  function FindLower(src: Dict, k: string): Option<Node>
  {
    if src == [] then None
    else if Lower(src[|src| - 1].0) == k then Some(src[|src| - 1].1)
    else FindLower(src[..|src| - 1], k)
  }

  /**
   * Whether the source alone determines the leaf found at the lower-case
   * path `x` after merging it: `Some(o)` means the merged tree has `o` there
   * whatever the destination held; `None` means the destination's answer
   * stands.
   */
  function Decides(src: Dict, x: seq<string>): Option<Option<Value>>
    requires |x| > 0
    decreases |x|, 0
  {
    match FindLower(src, x[0])
    case None => None
    case Some(node) => NodeDecides(node, x[1..])
  }

  function NodeDecides(node: Node, rest: seq<string>): Option<Option<Value>>
    decreases |rest|, 1
  {
    match node
    case Leaf(v) => Some(if rest == [] then Some(v) else None)
    case Branch(sub) => if rest == [] then None else Decides(sub, rest)
  }

  // ------------------------------------------------ keys the source lacks

  lemma EntryOtherKeys(acc: Dict, key: string, node: Node, k: string)
    requires MergeEntry(acc, key, node).Ok? && k != key
    ensures Get(MergeEntry(acc, key, node).value, k) == Get(acc, k)
  {
    match node
    case Leaf(_) => GetSet(acc, key, node, k);
    case Branch(sub) =>
      if !(Get(acc, key).Some? && Get(acc, key).value.Leaf?) {
        GetSet(acc, key, Branch(MergePrefix(sub, |sub|, SubDict(Get(acc, key))).value), k);
      }
  }

  /** A destination key that no source key lower-cases to keeps its value. */
  lemma {:induction false} MergeOtherKeys(src: Dict, n: nat, dst: Dict, k: string)
    requires n <= |src| && MergePrefix(src, n, dst).Ok?
    requires FindLower(src[..n], k).None?
    ensures Get(MergePrefix(src, n, dst).value, k) == Get(dst, k)
  {
    if n > 0 {
      assert src[..n][..n - 1] == src[..n - 1];
      MergeOtherKeys(src, n - 1, dst, k);
      EntryOtherKeys(MergePrefix(src, n - 1, dst).value, Lower(src[n - 1].0), src[n - 1].1, k);
    }
  }

  /** In a source with distinct lower-cased keys, no earlier entry shares an entry's lower-cased key. */
  lemma {:induction false} NoEarlierLower(src: Dict, n: nat, key: string)
    requires 0 < n <= |src| && LowerDistinct(src) && key == Lower(src[n - 1].0)
    ensures FindLower(src[..n - 1], key).None?
  {
    var m := n - 1;
    while m > 0
      invariant 0 <= m <= n - 1
      invariant FindLower(src[..n - 1], key) == FindLower(src[..m], key)
    {
      assert src[..m][..m - 1] == src[..m - 1];
      assert Lower(src[m - 1].0) != key;
      m := m - 1;
    }
  }

  // --------------------------------------------- lookups after a merge

  lemma {:induction false} EntryLeafAt(acc: Dict, key: string, node: Node, x: seq<string>)
    requires |x| > 0 && x[0] == key
    requires node.Branch? ==> LowerDistinct(node.entries)
    requires MergeEntry(acc, key, node).Ok?
    ensures LeafAt(MergeEntry(acc, key, node).value, x) ==
              match NodeDecides(node, x[1..]) case Some(o) => o case None => LeafAt(acc, x)
    decreases node, if node.Branch? then |node.entries| + 1 else 0
  {
    match node
    case Leaf(_) => GetSet(acc, key, node, key);
    case Branch(sub) =>
      if !(Get(acc, key).Some? && Get(acc, key).value.Leaf?) {
        var base := SubDict(Get(acc, key));
        var t := MergePrefix(sub, |sub|, base).value;
        GetSet(acc, key, Branch(t), key);
        if |x| > 1 {
          MergeLeafAt(sub, |sub|, base, x[1..]);
          assert sub[..|sub|] == sub;
        }
      }
  }

  /**
   * After a merge that does not raise, the leaf at a path is the source's
   * answer where the source decides it, and the destination's otherwise.
   */
  lemma {:induction false} MergeLeafAt(src: Dict, n: nat, dst: Dict, x: seq<string>)
    requires n <= |src| && |x| > 0
    requires LowerDistinct(src)
    requires MergePrefix(src, n, dst).Ok?
    ensures LeafAt(MergePrefix(src, n, dst).value, x) ==
              match Decides(src[..n], x) case Some(o) => o case None => LeafAt(dst, x)
    decreases Branch(src), n, 1
  {
    if n == 0 {
      assert src[..0] == [];
    } else {
      if x[0] != Lower(src[n - 1].0) {
        MergeLeafAt(src, n - 1, dst, x);
        MergeLeafAtOther(src, n, dst, x);
      } else {
        MergeLeafAtLast(src, n, dst, x);
      }
    }
  }

  lemma MergeLeafAtOther(src: Dict, n: nat, dst: Dict, x: seq<string>)
    requires 0 < n <= |src| && |x| > 0 && x[0] != Lower(src[n - 1].0)
    requires MergePrefix(src, n, dst).Ok?
    ensures LeafAt(MergePrefix(src, n, dst).value, x) == LeafAt(MergePrefix(src, n - 1, dst).value, x)
    ensures Decides(src[..n], x) == Decides(src[..n - 1], x)
  {
    assert src[..n][..n - 1] == src[..n - 1];
    var acc := MergePrefix(src, n - 1, dst).value;
    EntryOtherKeys(acc, Lower(src[n - 1].0), src[n - 1].1, x[0]);
    LeafAtSameGet(MergePrefix(src, n, dst).value, acc, x);
  }

  lemma LeafAtSameGet(a: Dict, b: Dict, x: seq<string>)
    requires |x| > 0 && Get(a, x[0]) == Get(b, x[0])
    ensures LeafAt(a, x) == LeafAt(b, x)
  {
  }

  lemma {:induction false} MergeLeafAtLast(src: Dict, n: nat, dst: Dict, x: seq<string>)
    requires 0 < n <= |src| && |x| > 0 && x[0] == Lower(src[n - 1].0)
    requires LowerDistinct(src)
    requires MergePrefix(src, n, dst).Ok?
    ensures LeafAt(MergePrefix(src, n, dst).value, x) ==
              match Decides(src[..n], x) case Some(o) => o case None => LeafAt(dst, x)
    decreases Branch(src), n, 0
  {
    var acc := MergePrefix(src, n - 1, dst).value;
    var key := x[0];
    assert FindLower(src[..n], key) == Some(src[n - 1].1);
    NoEarlierLower(src, n, key);
    MergeOtherKeys(src, n - 1, dst, key);
    assert src[n - 1].1 in [src[n - 1].1];
    EntryLeafAt(acc, key, src[n - 1].1, x);
  }

  /** The path with every key lower-cased. */
  function LowerPath(p: seq<string>): (r: seq<string>)
    ensures |r| == |p| && forall j :: 0 <= j < |p| ==> r[j] == Lower(p[j])
  {
    if p == [] then [] else [Lower(p[0])] + LowerPath(p[1..])
  }

  /** With distinct lower-cased keys, the entry whose key lower-cases to `Lower(k)` is the one at `k`. */
  lemma {:induction false} FindLowerGet(src: Dict, k: string)
    requires forall i, j :: 0 <= i < j < |src| ==> Lower(src[i].0) != Lower(src[j].0)
    requires k in Keys(src)
    ensures FindLower(src, Lower(k)) == Get(src, k)
  {
    var last := src[|src| - 1];
    var init := src[..|src| - 1];
    if Lower(last.0) == Lower(k) {
      LastKeyIs(src, k);
      GetLast(src, k);
    } else {
      KeyInInit(src, k);
      FindLowerGet(init, k);
      GetInit(src, k);
    }
  }

  /** With distinct lower-cased keys, a last key that lower-cases like `k` is `k`. */
  lemma {:induction false} LastKeyIs(src: Dict, k: string)
    requires forall i, j :: 0 <= i < j < |src| ==> Lower(src[i].0) != Lower(src[j].0)
    requires k in Keys(src) && Lower(src[|src| - 1].0) == Lower(k)
    ensures src[|src| - 1].0 == k
  {
    var keys := Keys(src);
    var i :| 0 <= i < |keys| && keys[i] == k;
    assert keys[i] == src[i].0;
    assert Lower(src[i].0) == Lower(src[|src| - 1].0) ==> i >= |src| - 1;
    assert i == |src| - 1;
  }

  lemma {:induction false} KeyInInit(src: Dict, k: string)
    requires k in Keys(src) && src[|src| - 1].0 != k
    ensures k in Keys(src[..|src| - 1])
  {
    var i :| 0 <= i < |src| && src[i].0 == k;
    assert i < |src| - 1;
    assert Keys(src[..|src| - 1])[i] == k;
  }

  lemma GetLast(src: Dict, k: string)
    requires |src| > 0 && src[|src| - 1].0 == k
    requires forall i :: 0 <= i < |src| - 1 ==> src[i].0 != k
    ensures Get(src, k) == Some(src[|src| - 1].1)
  {
    if |src| > 1 {
      GetLast(src[1..], k);
    }
  }

  lemma {:induction false} GetInit(src: Dict, k: string)
    requires |src| > 0 && k in Keys(src[..|src| - 1])
    ensures Get(src, k) == Get(src[..|src| - 1], k)
  {
    var init := src[..|src| - 1];
    if src[0].0 != k {
      var t := src[1..];
      assert init[0] == src[0];
      assert t[..|t| - 1] == init[1..];
      assert k in Keys(init[1..]);
      GetInit(t, k);
    }
  }

  /** A source leaf decides the lower-cased form of its path. */
  lemma {:induction false} DecidesLeaf(src: Dict, p: seq<string>, v: Value)
    requires |p| > 0 && LowerDistinct(src) && LeafAt(src, p) == Some(v)
    ensures Decides(src, LowerPath(p)) == Some(Some(v))
    decreases |p|
  {
    FindLowerGet(src, p[0]);
    var node := Get(src, p[0]).value;
    assert (p[0], node) in src;
    assert LowerPath(p)[1..] == LowerPath(p[1..]);
    if |p| > 1 {
      DecidesLeaf(node.entries, p[1..], v);
    }
  }

  /**
   * Every leaf of the source is found, after a merge that does not raise,
   * at its lower-cased path.
   */
  lemma MergeSourceLeaf(src: Dict, dst: Dict, p: seq<string>, v: Value)
    requires |p| > 0 && LowerDistinct(src) && LeafAt(src, p) == Some(v)
    requires Merge(src, dst).Ok?
    ensures LeafAt(Merge(src, dst).value, LowerPath(p)) == Some(v)
  {
    DecidesLeaf(src, p, v);
    MergeLeafAt(src, |src|, dst, LowerPath(p));
    assert src[..|src|] == src;
  }

  // ----------------------------------------------------- when it raises

  /**
   * The source can be merged into the destination: no nested dict of the
   * source with entries meets a leaf of the destination at the same path.
   */
  predicate Compatible(src: Dict, dst: Dict)
    decreases Branch(src)
  {
    forall i :: 0 <= i < |src| && src[i].1.Branch? ==>
      match Get<Node>(dst, Lower(src[i].0))
      case Some(Leaf(_)) => src[i].1.entries == []
      case Some(Branch(t)) => Compatible(src[i].1.entries, t)
      case None => true
  }

  lemma CompatibleEmpty(src: Dict)
    ensures Compatible(src, [])
  {
  }

  lemma {:induction false} EntryOk(acc: Dict, key: string, node: Node)
    requires node.Branch? ==> LowerDistinct(node.entries)
    ensures MergeEntry(acc, key, node).Ok? <==>
              (node.Branch? ==> match Get<Node>(acc, key)
                                case Some(Leaf(_)) => node.entries == []
                                case Some(Branch(t)) => Compatible(node.entries, t)
                                case None => true)
    decreases node, if node.Branch? then |node.entries| + 1 else 0
  {
    if node.Branch? {
      var sub := node.entries;
      match Get<Node>(acc, key)
      case Some(Leaf(_)) =>
      case Some(Branch(t)) =>
        MergeOk(sub, |sub|, t);
        assert sub[..|sub|] == sub;
      case None =>
        MergeOk(sub, |sub|, []);
        assert sub[..|sub|] == sub;
        CompatibleEmpty(sub);
    }
  }

  lemma CompatibleSnoc(a: Dict, e: (string, Node), dst: Dict)
    ensures Compatible(a + [e], dst) <==> Compatible(a, dst) && Compatible([e], dst)
  {
    var s := a + [e];
    assert forall i :: 0 <= i < |a| ==> s[i] == a[i];
    assert s[|a|] == e;
  }

  lemma CompatiblePrefix(src: Dict, n: nat, dst: Dict)
    requires 0 < n <= |src|
    ensures Compatible(src[..n], dst) <==> Compatible(src[..n - 1], dst) && Compatible([src[n - 1]], dst)
  {
    assert src[..n] == src[..n - 1] + [src[n - 1]];
    CompatibleSnoc(src[..n - 1], src[n - 1], dst);
  }

  /**
   * With distinct lower-cased keys in the source, `merge_dicts` raises
   * exactly when the source is not compatible with the destination.
   */
  lemma {:induction false} MergeOk(src: Dict, n: nat, dst: Dict)
    requires n <= |src| && LowerDistinct(src)
    ensures MergePrefix(src, n, dst).Ok? <==> Compatible(src[..n], dst)
    decreases Branch(src), n, 1
  {
    if n > 0 {
      MergeOk(src, n - 1, dst);
      CompatiblePrefix(src, n, dst);
      if MergePrefix(src, n - 1, dst).Ok? {
        MergeOkStep(src, n, dst);
      }
    } else {
      assert src[..0] == [];
    }
  }

  lemma {:induction false} MergeOkStep(src: Dict, n: nat, dst: Dict)
    requires 0 < n <= |src| && LowerDistinct(src) && MergePrefix(src, n - 1, dst).Ok?
    ensures MergePrefix(src, n, dst).Ok? <==> Compatible([src[n - 1]], dst)
    decreases Branch(src), n, 0
  {
    var acc := MergePrefix(src, n - 1, dst).value;
    var key := Lower(src[n - 1].0);
    var node := src[n - 1].1;
    NoEarlierLower(src, n, key);
    MergeOtherKeys(src, n - 1, dst, key);
    EntryOk(acc, key, node);
    var single := [src[n - 1]];
    assert single[0] == (src[n - 1].0, node);
    assert Compatible(single, dst) <==>
      (node.Branch? ==> match Get<Node>(dst, key)
                        case Some(Leaf(_)) => node.entries == []
                        case Some(Branch(t)) => Compatible(node.entries, t)
                        case None => true);
  }

  // -------------------------------------------------------- idempotence

  /** The value at a key already holds everything merging `node` there would put. */
  predicate AbsorbedAt(g: Option<Node>, node: Node)
  {
    match node
    case Leaf(_) => g == Some(node)
    case Branch(sub) =>
      match g
      case Some(Leaf(_)) => sub == []
      case Some(Branch(t)) => MergePrefix(sub, |sub|, t) == Ok(t)
      case None => false
  }

  lemma AbsorbedEntry(d: Dict, key: string, node: Node)
    requires AbsorbedAt(Get(d, key), node)
    ensures MergeEntry(d, key, node) == Ok(d)
  {
    match node
    case Leaf(_) => SetSame(d, key, node);
    case Branch(sub) =>
      if Get(d, key).value.Branch? {
        SetSame(d, key, Get(d, key).value);
      }
  }

  lemma {:induction false} AbsorbedPrefix(src: Dict, n: nat, d: Dict)
    requires n <= |src|
    requires forall j :: 0 <= j < n ==> MergeEntry(d, Lower(src[j].0), src[j].1) == Ok(d)
    ensures MergePrefix(src, n, d) == Ok(d)
  {
    if n > 0 {
      AbsorbedPrefix(src, n - 1, d);
      MergePrefixNext(src, n - 1, d, d);
    }
  }

  lemma {:induction false} EntryAbsorbs(acc: Dict, key: string, node: Node)
    requires node.Branch? ==> LowerDistinct(node.entries)
    requires MergeEntry(acc, key, node).Ok?
    ensures AbsorbedAt(Get(MergeEntry(acc, key, node).value, key), node)
    decreases node, 2, 0
  {
    match node
    case Leaf(_) => GetSet(acc, key, node, key);
    case Branch(sub) =>
      if !(Get(acc, key).Some? && Get(acc, key).value.Leaf?) {
        var t := MergePrefix(sub, |sub|, SubDict(Get(acc, key))).value;
        GetSet(acc, key, Branch(t), key);
        MergeIdempotent(sub, SubDict(Get(acc, key)));
      }
  }

  lemma {:induction false} MergeAbsorbs(src: Dict, n: nat, dst: Dict, j: nat)
    requires j < n <= |src| && LowerDistinct(src) && MergePrefix(src, n, dst).Ok?
    ensures AbsorbedAt(Get(MergePrefix(src, n, dst).value, Lower(src[j].0)), src[j].1)
    decreases Branch(src), 0, n
  {
    var acc := MergePrefix(src, n - 1, dst).value;
    assert src[n - 1].1 in [src[n - 1].1];
    if j == n - 1 {
      EntryAbsorbs(acc, Lower(src[j].0), src[j].1);
    } else {
      MergeAbsorbs(src, n - 1, dst, j);
      EntryOtherKeys(acc, Lower(src[n - 1].0), src[n - 1].1, Lower(src[j].0));
    }
  }

  /**
   * Merging the same source a second time changes nothing, provided the
   * source's keys stay distinct once lower-cased.
   */
  lemma {:induction false} MergeIdempotent(src: Dict, dst: Dict)
    requires LowerDistinct(src) && Merge(src, dst).Ok?
    ensures Merge(src, Merge(src, dst).value) == Merge(src, dst)
    decreases Branch(src), 1, 0
  {
    var m := Merge(src, dst).value;
    forall j | 0 <= j < |src|
      ensures MergeEntry(m, Lower(src[j].0), src[j].1) == Ok(m)
    {
      MergeAbsorbs(src, |src|, dst, j);
      AbsorbedEntry(m, Lower(src[j].0), src[j].1);
    }
    AbsorbedPrefix(src, |src|, m);
  }

  /** Without distinct lower-cased keys, a second merge can raise. */
  lemma MergeTwiceRaises()
    ensures var src := [("A", Branch([("x", Leaf(Int(1)))])), ("a", Leaf(Int(5)))];
      Merge(src, []) == Ok([("a", Leaf(Int(5)))]) && Merge(src, [("a", Leaf(Int(5)))]) == Err(TypeError)
  {
    var inner := [("x", Leaf(Int(1)))];
    var src := [("A", Branch(inner)), ("a", Leaf(Int(5)))];
    var five := [("a", Leaf(Int(5)))];
    assert Lower("A") == "a" && Lower("a") == "a" && Lower("x") == "x";
    assert MergePrefix(inner, 1, []) == Ok(inner);
    assert MergeEntry([], "a", Branch(inner)) == Ok([("a", Branch(inner))]);
    assert MergePrefix(src, 1, []) == Ok([("a", Branch(inner))]);
    assert src[1] == ("a", Leaf(Int(5)));
    assert Set([("a", Branch(inner))], "a", Leaf(Int(5))) == five;
    assert MergeEntry([("a", Branch(inner))], "a", Leaf(Int(5))) == Ok(five);
    assert MergePrefix(src, 2, []) == Ok(five);
    assert MergeEntry(five, "a", Branch(inner)) == Err(TypeError);
    assert MergePrefix(src, 1, five) == Err(TypeError);
  }

  // ----------------------------------------------------- shape of result

  lemma {:induction false} SetEntries(d: Dict, k: string, node: Node)
    ensures forall e :: e in Set(d, k, node) ==> e == (k, node) || e in d
  {
    if d != [] && d[0].0 != k {
      SetEntries(d[1..], k, node);
    }
  }

  /** Assignment keeps nested keys distinct and lower case. */
  lemma SetShape(d: Dict, k: string, node: Node)
    requires node.Branch? ==> WellFormed(node.entries)
    requires WellFormed(d)
    ensures WellFormed(Set(d, k, node))
    ensures LowerKeys(d) && IsLowerCase(k) && (node.Branch? ==> LowerKeys(node.entries)) ==>
              LowerKeys(Set(d, k, node))
  {
    SetEntries(d, k, node);
    SetDistinct(d, k, node);
    var r := Set(d, k, node);
    assert forall i :: 0 <= i < |r| ==> r[i] in r;
  }

  lemma {:induction false} EntryShape(acc: Dict, key: string, node: Node)
    requires WellFormed(acc) && MergeEntry(acc, key, node).Ok?
    ensures WellFormed(MergeEntry(acc, key, node).value)
    ensures LowerKeys(acc) && IsLowerCase(key) ==> LowerKeys(MergeEntry(acc, key, node).value)
    decreases node, 1
  {
    match node
    case Leaf(_) => SetShape(acc, key, node);
    case Branch(sub) =>
      var g := Get(acc, key);
      if !(g.Some? && g.value.Leaf?) {
        if g.Some? {
          assert (key, g.value) in acc;
        }
        var t := MergePrefix(sub, |sub|, SubDict(g)).value;
        MergeShape(sub, |sub|, SubDict(g));
        SetShape(acc, key, Branch(t));
      }
  }

  /**
   * Merging into a dict whose nested keys are distinct keeps them distinct;
   * merging into one whose keys are all lower case keeps them lower case.
   */
  lemma {:induction false} MergeShape(src: Dict, n: nat, dst: Dict)
    requires n <= |src| && WellFormed(dst) && MergePrefix(src, n, dst).Ok?
    ensures WellFormed(MergePrefix(src, n, dst).value)
    ensures LowerKeys(dst) ==> LowerKeys(MergePrefix(src, n, dst).value)
    decreases Branch(src), 0, n
  {
    if n > 0 {
      MergeShape(src, n - 1, dst);
      LowerIsLowerCase(src[n - 1].0);
      assert src[n - 1].1 in [src[n - 1].1];
      EntryShape(MergePrefix(src, n - 1, dst).value, Lower(src[n - 1].0), src[n - 1].1);
    }
  }

  /** Every step of a leaf path in a tree with lower-case keys is lower case. */
  lemma {:induction false} LeafAtLower(t: Dict, x: seq<string>)
    requires |x| > 0 && LowerKeys(t) && LeafAt(t, x).Some?
    ensures forall j :: 0 <= j < |x| ==> IsLowerCase(x[j])
    decreases |x|
  {
    var node := Get(t, x[0]).value;
    var i :| 0 <= i < |t| && t[i] == (x[0], node);
    if |x| > 1 {
      LeafAtLower(node.entries, x[1..]);
      assert forall j :: 1 <= j < |x| ==> x[j] == x[1..][j - 1];
    }
  }

  /** With distinct keys, all in lower case, the keys are distinct after lower-casing too. */
  lemma {:induction false} LowerKeysDistinct(d: Dict)
    requires WellFormed(d) && LowerKeys(d)
    ensures LowerDistinct(d)
    decreases Branch(d)
  {
    forall i | 0 <= i < |d| ensures Lower(d[i].0) == d[i].0 {
      LowerIsLowerCase(d[i].0);
    }
    forall i | 0 <= i < |d| && d[i].1.Branch? ensures LowerDistinct(d[i].1.entries) {
      LowerKeysDistinct(d[i].1.entries);
    }
  }
}
