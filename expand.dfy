// What `expand_flattened_dict` guarantees: over dotted keys none of whose
// paths begins another, it raises nothing and builds the tree that holds
// each value at its key's path, so it undoes the documented
// `flatten_dict`; where one path begins another, the earlier entry wins or
// the later one raises.
module ExpandProperties {
  import opened Wrappers
  import opened Strings
  import opened Values
  import opened Tree
  import opened Utils
  import opened MergeProperties
  import opened FlattenProperties

  /** `a` is `b` or a path that `b` extends. */
  predicate IsPrefix(a: seq<string>, b: seq<string>)
  {
    |a| <= |b| && b[..|a|] == a
  }

  /** The path the key of entry `j` splits into. */
  function PathOf(f: FlatDict, sep: string, j: nat): seq<string>
    requires |sep| > 0 && j < |f|
  {
    Split(f[j].0, sep)
  }

  /** No key's path is another key's path or the beginning of one. */
  predicate PrefixFree(f: FlatDict, sep: string)
    requires |sep| > 0
  {
    forall j, l :: 0 <= j < |f| && 0 <= l < |f| && j != l ==> !IsPrefix(PathOf(f, sep, j), PathOf(f, sep, l))
  }

  /** Every key of every path is lower case. */
  predicate LowerPaths(f: FlatDict, sep: string)
    requires |sep| > 0
  {
    forall j, i :: 0 <= j < |f| && 0 <= i < |PathOf(f, sep, j)| ==> IsLowerCase(PathOf(f, sep, j)[i])
  }

  /** Every nested dict, at any level, has entries. */
  predicate NoEmpty(d: Dict)
    decreases Branch(d)
  {
    forall i :: 0 <= i < |d| && d[i].1.Branch? ==> d[i].1.entries != [] && NoEmpty(d[i].1.entries)
  }

  /** The value the first `n` entries put at `x`: that of the last entry whose key splits into `x`. */
  function Expected(f: FlatDict, sep: string, n: nat, x: seq<string>): Option<Value>
    requires |sep| > 0 && n <= |f|
  {
    if n == 0 then None
    else if PathOf(f, sep, n - 1) == x then Some(CommaSplit(f[n - 1].1))
    else Expected(f, sep, n - 1, x)
  }

  // ------------------------------------------------ the expected leaves

  lemma {:induction false} ExpectedSome(f: FlatDict, sep: string, n: nat, x: seq<string>) returns (j: nat)
    requires |sep| > 0 && n <= |f| && Expected(f, sep, n, x).Some?
    ensures j < n && PathOf(f, sep, j) == x && Expected(f, sep, n, x) == Some(CommaSplit(f[j].1))
  {
    if PathOf(f, sep, n - 1) == x {
      j := n - 1;
    } else {
      j := ExpectedSome(f, sep, n - 1, x);
    }
  }

  lemma {:induction false} ExpectedAt(f: FlatDict, sep: string, n: nat, j: nat)
    requires |sep| > 0 && j < n <= |f| && PrefixFree(f, sep)
    ensures Expected(f, sep, n, PathOf(f, sep, j)) == Some(CommaSplit(f[j].1))
  {
    if j < n - 1 {
      assert !IsPrefix(PathOf(f, sep, n - 1), PathOf(f, sep, j));
      ExpectedAt(f, sep, n - 1, j);
    }
  }

  /** No entry before `i` is at the path of entry `i` or below it. */
  lemma {:induction false} ExpectedNoneBelow(f: FlatDict, sep: string, n: nat, i: nat, y: seq<string>)
    requires |sep| > 0 && n <= i < |f| && PrefixFree(f, sep)
    ensures Expected(f, sep, n, PathOf(f, sep, i) + y).None?
  {
    if n > 0 {
      var p := PathOf(f, sep, i);
      assert (p + y)[..|p|] == p;
      assert !IsPrefix(p, PathOf(f, sep, n - 1));
      ExpectedNoneBelow(f, sep, n - 1, i, y);
    }
  }

  /** No entry before `i` is at a beginning of the path of entry `i`. */
  lemma {:induction false} ExpectedNoneAbove(f: FlatDict, sep: string, n: nat, i: nat, k: nat)
    requires |sep| > 0 && n <= i < |f| && PrefixFree(f, sep) && k <= |PathOf(f, sep, i)|
    ensures Expected(f, sep, n, PathOf(f, sep, i)[..k]).None?
  {
    if n > 0 {
      assert !IsPrefix(PathOf(f, sep, n - 1), PathOf(f, sep, i));
      ExpectedNoneAbove(f, sep, n - 1, i, k);
    }
  }

  lemma {:induction false} ExpectedNext(f: FlatDict, sep: string, i: nat, x: seq<string>)
    requires |sep| > 0 && i < |f| && PathOf(f, sep, i) != x
    ensures Expected(f, sep, i + 1, x) == Expected(f, sep, i, x)
  {
  }

  // ------------------------------------------------- nested dicts kept

  lemma {:induction false} SetNoEmpty(d: Dict, k: string, node: Node)
    requires NoEmpty(d) && (node.Branch? ==> node.entries != [] && NoEmpty(node.entries))
    ensures NoEmpty(Set(d, k, node))
  {
    SetEntries(d, k, node);
    var r := Set(d, k, node);
    assert forall i :: 0 <= i < |r| ==> r[i] in r;
  }

  /** A merge that does not raise leaves the merged key in the result. */
  lemma EntryHasKey(acc: Dict, key: string, node: Node)
    requires MergeEntry(acc, key, node).Ok?
    ensures key in Keys(MergeEntry(acc, key, node).value)
  {
    match node
    case Leaf(_) => SetKeys(acc, key, node);
    case Branch(sub) =>
      var g := Get(acc, key);
      if g.Some? && g.value.Leaf? {
      } else {
        SetKeys(acc, key, Branch(MergePrefix(sub, |sub|, SubDict(g)).value));
      }
  }

  lemma {:induction false} EntryNoEmpty(acc: Dict, key: string, node: Node)
    requires NoEmpty(acc) && MergeEntry(acc, key, node).Ok?
    requires node.Branch? ==> node.entries != [] && NoEmpty(node.entries)
    ensures NoEmpty(MergeEntry(acc, key, node).value)
    decreases node, 1
  {
    match node
    case Leaf(_) => SetNoEmpty(acc, key, node);
    case Branch(sub) =>
      var g := Get(acc, key);
      if !(g.Some? && g.value.Leaf?) {
        if g.Some? {
          assert (key, g.value) in acc;
        }
        var t := MergePrefix(sub, |sub|, SubDict(g)).value;
        MergeNoEmpty(sub, |sub|, SubDict(g));
        EntryHasKey(MergePrefix(sub, |sub| - 1, SubDict(g)).value, Lower(sub[|sub| - 1].0), sub[|sub| - 1].1);
        SetNoEmpty(acc, key, Branch(t));
      }
  }

  /** Merging a source without empty nested dicts into a destination without them creates none. */
  lemma {:induction false} MergeNoEmpty(src: Dict, n: nat, dst: Dict)
    requires n <= |src| && NoEmpty(src) && NoEmpty(dst) && MergePrefix(src, n, dst).Ok?
    ensures NoEmpty(MergePrefix(src, n, dst).value)
    decreases Branch(src), 0, n
  {
    if n > 0 {
      MergeNoEmpty(src, n - 1, dst);
      assert src[n - 1].1 in [src[n - 1].1];
      EntryNoEmpty(MergePrefix(src, n - 1, dst).value, Lower(src[n - 1].0), src[n - 1].1);
    }
  }

  /** The one-path tree of `expand_flattened_path`. */
  lemma {:induction false} ChainShape(p: seq<string>, v: Value)
    requires |p| > 0
    ensures WellFormed([(p[0], Chain(p[1..], v))]) && NoEmpty([(p[0], Chain(p[1..], v))])
    ensures (forall i :: 0 <= i < |p| ==> IsLowerCase(p[i])) ==> LowerKeys([(p[0], Chain(p[1..], v))])
    decreases |p|
  {
    if |p| > 1 {
      ChainShape(p[1..], v);
      assert p[1..][1..] == p[2..];
    }
  }

  // ------------------------------------------ lower-case keyed sources

  lemma {:induction false} FindLowerSome(m: Dict, k: string) returns (i: nat)
    requires FindLower(m, k).Some?
    ensures i < |m| && Lower(m[i].0) == k && FindLower(m, k) == Some(m[i].1)
  {
    if Lower(m[|m| - 1].0) == k {
      i := |m| - 1;
    } else {
      i := FindLowerSome(m[..|m| - 1], k);
    }
  }

  /** In a dict with distinct lower-case keys, the lower-cased lookup is the plain one. */
  lemma FindLowerIsGet(m: Dict, k: string)
    requires WellFormed(m) && LowerKeys(m)
    ensures FindLower(m, k) == Get(m, k)
  {
    LowerKeysDistinct(m);
    if k in Keys(m) {
      var i :| 0 <= i < |m| && Keys(m)[i] == k;
      LowerIsLowerCase(m[i].0);
      FindLowerGet(m, k);
    } else if FindLower(m, k).Some? {
      var i := FindLowerSome(m, k);
      LowerIsLowerCase(m[i].0);
      assert false;
    }
  }

  /**
   * A lower-case keyed source decides a path with its own answer, decides
   * nothing where it has no leaf, and decides nothing when no beginning of
   * the path is one of its leaves.
   */
  lemma {:induction false} DecidesOwn(m: Dict, x: seq<string>)
    requires |x| > 0 && WellFormed(m) && LowerKeys(m)
    ensures Decides(m, x).Some? ==> Decides(m, x).value == LeafAt(m, x)
    ensures Decides(m, x).None? ==> LeafAt(m, x).None?
    ensures (forall k :: 0 < k <= |x| ==> LeafAt(m, x[..k]).None?) ==> Decides(m, x).None?
    decreases |x|
  {
    FindLowerIsGet(m, x[0]);
    assert x[..1][0] == x[0];
    match Get<Node>(m, x[0])
    case None =>
    case Some(Leaf(v)) =>
      assert NodeDecides(Leaf(v), x[1..]).Some?;
      assert LeafAt(m, x[..1]) == Some(v);
    case Some(Branch(sub)) =>
      if |x| > 1 {
        assert (x[0], Branch(sub)) in m;
        DecidesOwn(sub, x[1..]);
        assert Decides(m, x) == Decides(sub, x[1..]);
        assert LeafAt(m, x) == LeafAt(sub, x[1..]);
        if forall k :: 0 < k <= |x| ==> LeafAt(m, x[..k]).None? {
          forall k | 0 < k <= |x| - 1
            ensures LeafAt(sub, x[1..][..k]).None?
          {
            assert x[..k + 1][0] == x[0] && x[..k + 1][1..] == x[1..][..k];
            assert LeafAt(m, x[..k + 1]).None?;
          }
        }
      }
  }

  /** A tree without empty nested dicts has a leaf in every non-empty dict. */
  lemma {:induction false} SomeLeaf(d: Dict) returns (y: seq<string>)
    requires d != [] && WellFormed(d) && NoEmpty(d)
    ensures |y| > 0 && LeafAt(d, y).Some?
    decreases Branch(d)
  {
    GetDistinct(d, 0);
    match d[0].1
    case Leaf(v) =>
      y := [d[0].0];
    case Branch(sub) =>
      assert d[0] in d;
      var z := SomeLeaf(sub);
      y := [d[0].0] + z;
      assert y[1..] == z;
  }

  /**
   * Merging the tree built so far into the one-path tree of the next entry
   * raises nothing when no leaf of the tree lies strictly below that path.
   */
  lemma {:induction false} CompatibleChain(m: Dict, p: seq<string>, v: Value)
    requires |p| > 0 && WellFormed(m) && LowerKeys(m) && NoEmpty(m)
    requires forall y :: |y| > 0 ==> LeafAt(m, p + y).None?
    ensures Compatible(m, [(p[0], Chain(p[1..], v))])
    decreases |p|, 1
  {
    forall i | 0 <= i < |m| && m[i].1.Branch?
      ensures match Get<Node>([(p[0], Chain(p[1..], v))], Lower(m[i].0))
              case Some(Leaf(_)) => m[i].1.entries == []
              case Some(Branch(t)) => Compatible(m[i].1.entries, t)
              case None => true
    {
      LowerIsLowerCase(m[i].0);
      if m[i].0 == p[0] {
        CompatibleChainAt(m, p, v, i);
        assert p[1..][1..] == p[2..];
      }
    }
  }

  /** A path into a nested dict goes through the key that holds it. */
  lemma {:induction false} LeafAtBelow(m: Dict, k: string, sub: Dict, q: seq<string>, y: seq<string>)
    requires Get(m, k) == Some(Branch(sub)) && |y| > 0 && |q| > 0 && q[0] == k
    ensures LeafAt(m, q + y) == LeafAt(sub, q[1..] + y)
  {
    assert (q + y)[0] == k && (q + y)[1..] == q[1..] + y;
  }

  /** The nested dict of `m` at the first key of `p` merges into the rest of the chain. */
  lemma {:induction false} CompatibleChainAt(m: Dict, p: seq<string>, v: Value, i: nat)
    requires |p| > 0 && WellFormed(m) && LowerKeys(m) && NoEmpty(m)
    requires forall y :: |y| > 0 ==> LeafAt(m, p + y).None?
    requires i < |m| && m[i].0 == p[0] && m[i].1.Branch?
    ensures |p| > 1 && Compatible(m[i].1.entries, [(p[1..][0], Chain(p[1..][1..], v))])
    decreases |p|, 0
  {
    var sub := m[i].1.entries;
    GetDistinct(m, i);
    if |p| == 1 {
      var z := SomeLeaf(sub);
      assert false;
    } else {
      forall y | |y| > 0
        ensures LeafAt(sub, p[1..] + y).None?
      {
        LeafAtBelow(m, p[0], sub, p, y);
      }
      CompatibleChain(sub, p[1..], v);
    }
  }

  // --------------------------------------------- expand_flattened_dict

  /**
   * The loop invariant of `expand_flattened_dict` after `n` entries: the
   * tree `m` built so far holds exactly their comma-split values at their
   * paths, with distinct lower-case keys and no empty nested dict.
   */
  ghost predicate Good(f: FlatDict, sep: string, n: nat, m: Dict)
    requires |sep| > 0 && n <= |f|
  {
    WellFormed(m) && LowerKeys(m) && NoEmpty(m) &&
    forall x :: |x| > 0 ==> LeafAt(m, x) == Expected(f, sep, n, x)
  }

  /** Over lower-case, prefix-free paths, `expand_flattened_dict` raises nothing and builds the expected tree. */
  lemma ExpandBuilds(f: FlatDict, sep: string) returns (m: Dict)
    requires |sep| > 0 && PrefixFree(f, sep) && LowerPaths(f, sep)
    ensures ExpandFlattened(f, sep) == Ok(m) && Good(f, sep, |f|, m)
  {
    m := [];
    forall x | |x| > 0
      ensures LeafAt([], x) == Expected(f, sep, 0, x)
    {
    }
    var i := 0;
    while i < |f|
      invariant i <= |f| && ExpandPrefix(f, i, sep) == Ok(m) && Good(f, sep, i, m)
    {
      m := ExpandStepBuilds(f, sep, i, m);
      i := i + 1;
    }
  }

  lemma {:induction false} ExpandStepBuilds(f: FlatDict, sep: string, i: nat, m0: Dict) returns (m: Dict)
    requires |sep| > 0 && i < |f| && PrefixFree(f, sep) && LowerPaths(f, sep)
    requires ExpandPrefix(f, i, sep) == Ok(m0) && Good(f, sep, i, m0)
    ensures ExpandPrefix(f, i + 1, sep) == Ok(m) && Good(f, sep, i + 1, m)
  {
    var p := PathOf(f, sep, i);
    var v := CommaSplit(f[i].1);
    var chain := [(p[0], Chain(p[1..], v))];
    ExpandFlattenedPathChain(f[i].0, sep, v);
    ExpandPrefixNext(f, i, sep, m0);
    assert ExpandPrefix(f, i + 1, sep) == MergePrefix(m0, |m0|, chain);
    forall y | |y| > 0
      ensures LeafAt(m0, p + y).None?
    {
      ExpectedNoneBelow(f, sep, i, i, y);
    }
    CompatibleChain(m0, p, v);
    LowerKeysDistinct(m0);
    MergeOk(m0, |m0|, chain);
    assert m0[..|m0|] == m0;
    m := MergePrefix(m0, |m0|, chain).value;
    ChainShape(p, v);
    MergeShape(m0, |m0|, chain);
    MergeNoEmpty(m0, |m0|, chain);
    forall x | |x| > 0
      ensures LeafAt(m, x) == Expected(f, sep, i + 1, x)
    {
      StepLeafAt(f, sep, i, m0, x);
    }
  }

  /** One iteration of `expand_flattened_dict` puts the entry's value at its path and changes no other leaf. */
  lemma {:induction false} StepLeafAt(f: FlatDict, sep: string, i: nat, m: Dict, x: seq<string>)
    requires |sep| > 0 && i < |f| && PrefixFree(f, sep) && |x| > 0
    requires WellFormed(m) && LowerKeys(m)
    requires forall x :: |x| > 0 ==> LeafAt(m, x) == Expected(f, sep, i, x)
    requires var p := PathOf(f, sep, i);
      MergePrefix(m, |m|, [(p[0], Chain(p[1..], CommaSplit(f[i].1)))]).Ok?
    ensures var p := PathOf(f, sep, i);
      LeafAt(MergePrefix(m, |m|, [(p[0], Chain(p[1..], CommaSplit(f[i].1)))]).value, x) == Expected(f, sep, i + 1, x)
  {
    var p := PathOf(f, sep, i);
    var v := CommaSplit(f[i].1);
    var chain := [(p[0], Chain(p[1..], v))];
    LowerKeysDistinct(m);
    MergeLeafAt(m, |m|, chain, x);
    assert m[..|m|] == m;
    LeafAtChain(p, v, x);
    DecidesOwn(m, x);
    if x == p {
      StepFreshPath(f, sep, i, m);
    } else {
      ExpectedNext(f, sep, i, x);
    }
  }

  /** The tree built before entry `i` has no leaf at a beginning of its path. */
  lemma StepFreshPath(f: FlatDict, sep: string, i: nat, m: Dict)
    requires |sep| > 0 && i < |f| && PrefixFree(f, sep)
    requires forall x :: |x| > 0 ==> LeafAt(m, x) == Expected(f, sep, i, x)
    ensures forall k :: 0 < k <= |PathOf(f, sep, i)| ==> LeafAt(m, PathOf(f, sep, i)[..k]).None?
  {
    forall k | 0 < k <= |PathOf(f, sep, i)|
      ensures LeafAt(m, PathOf(f, sep, i)[..k]).None?
    {
      ExpectedNoneAbove(f, sep, i, i, k);
    }
  }

  /**
   * `expand_flattened_dict` over keys whose paths are lower case and none
   * of which begins another raises nothing, and the tree it returns holds
   * each entry's comma-split value at the path its key splits into, and no
   * other leaf.
   */
  lemma ExpandFlattenedLeafAt(f: FlatDict, sep: string, j: nat, x: seq<string>)
    requires |sep| > 0 && PrefixFree(f, sep) && LowerPaths(f, sep) && j < |f| && |x| > 0
    ensures ExpandFlattened(f, sep).Ok?
    ensures LeafAt(ExpandFlattened(f, sep).value, PathOf(f, sep, j)) == Some(CommaSplit(f[j].1))
    ensures LeafAt(ExpandFlattened(f, sep).value, x).Some? ==> exists l :: 0 <= l < |f| && PathOf(f, sep, l) == x
  {
    var m := ExpandBuilds(f, sep);
    ExpectedAt(f, sep, |f|, j);
    if Expected(f, sep, |f|, x).Some? {
      var l := ExpectedSome(f, sep, |f|, x);
    }
  }

  /** Two leaves of a tree never lie one below the other. */
  lemma {:induction false} LeafNotExtended(t: Dict, q: seq<string>, y: seq<string>)
    requires |q| > 0 && |y| > 0 && LeafAt(t, q).Some?
    ensures LeafAt(t, q + y).None?
    decreases |q|
  {
    assert (q + y)[0] == q[0] && (q + y)[1..] == q[1..] + y;
    if |q| > 1 {
      LeafNotExtended(Get(t, q[0]).value.entries, q[1..], y);
    }
  }

  lemma {:induction false} FlatFoldDistinct(ls: seq<(seq<string>, Value)>, n: nat, sep: string)
    requires n <= |ls|
    ensures DistinctKeys(FlatFold(ls, n, sep))
  {
    if n > 0 {
      FlatFoldDistinct(ls, n - 1, sep);
      SetDistinct(FlatFold(ls, n - 1, sep), Join(ls[n - 1].0, sep), ls[n - 1].1);
    }
  }

  /** Distinct keys filed at leaf paths of one tree have paths neither of which begins the other. */
  lemma {:induction false} PathsNotPrefix(t: Dict, f: FlatDict, sep: string, j: nat, l: nat)
    requires |sep| > 0 && DistinctKeys(f) && j < |f| && l < |f| && j != l
    requires LeafAt(t, PathOf(f, sep, j)).Some? && LeafAt(t, PathOf(f, sep, l)).Some?
    ensures !IsPrefix(PathOf(f, sep, j), PathOf(f, sep, l))
  {
    var q, r := PathOf(f, sep, j), PathOf(f, sep, l);
    JoinSplit(f[j].0, sep);
    JoinSplit(f[l].0, sep);
    if j < l {
      assert f[j].0 != f[l].0;
    } else {
      assert f[l].0 != f[j].0;
    }
    if |q| < |r| {
      var y := r[|q|..];
      LeafNotExtended(t, q, y);
      assert r == r[..|q|] + y;
    } else if |q| == |r| {
      assert r[..|r|] == r;
    }
  }

  /** The flattened entries of a tree sit at leaf paths of the tree, none below another. */
  lemma FlattenedPaths(t: Dict, c: char)
    requires WellFormed(t) && LowerKeys(t) && KeysFree(t, c)
    ensures var f := Flatten(t, [c]);
      DistinctKeys(f) && PrefixFree(f, [c]) && LowerPaths(f, [c]) &&
      forall j :: 0 <= j < |f| ==> LeafAt(t, PathOf(f, [c], j)) == Some(f[j].1)
  {
    var f := Flatten(t, [c]);
    var sep := [c];
    FlatFoldDistinct(Leaves(t), |Leaves(t)|, sep);
    forall j | 0 <= j < |f|
      ensures LeafAt(t, PathOf(f, sep, j)) == Some(f[j].1)
    {
      GetDistinct(f, j);
      FlattenGet(t, c, f[j].0);
    }
    forall j, i | 0 <= j < |f| && 0 <= i < |PathOf(f, sep, j)|
      ensures IsLowerCase(PathOf(f, sep, j)[i])
    {
      LeafAtLower(t, PathOf(f, sep, j));
    }
    forall j, l | 0 <= j < |f| && 0 <= l < |f| && j != l
      ensures !IsPrefix(PathOf(f, sep, j), PathOf(f, sep, l))
    {
      PathsNotPrefix(t, f, sep, j, l);
    }
  }

  /**
   * The round trip of the documented `flatten_dict`: in a tree with
   * distinct lower-case keys, none holding the separator, whose leaves
   * hold no comma text, expanding the flattened dict raises nothing and
   * gives back every leaf at its path, and no other leaf.
   */
  lemma FlattenExpand(t: Dict, c: char)
    requires WellFormed(t) && LowerKeys(t) && KeysFree(t, c)
    requires forall j :: 0 <= j < |Leaves(t)| ==> NoCommaText(Leaves(t)[j].1)
    ensures ExpandFlattened(Flatten(t, [c]), [c]).Ok?
    ensures forall x :: |x| > 0 ==> LeafAt(ExpandFlattened(Flatten(t, [c]), [c]).value, x) == LeafAt(t, x)
  {
    var f := Flatten(t, [c]);
    var sep := [c];
    FlattenedPaths(t, c);
    var m := ExpandBuilds(f, sep);
    forall x | |x| > 0
      ensures Expected(f, sep, |f|, x) == LeafAt(t, x)
    {
      FlattenedExpected(t, c, x);
    }
  }

  /** The flattened dict of a tree puts at each path exactly the tree's leaf there. */
  lemma FlattenedExpected(t: Dict, c: char, x: seq<string>)
    requires WellFormed(t) && LowerKeys(t) && KeysFree(t, c) && |x| > 0
    requires forall j :: 0 <= j < |Leaves(t)| ==> NoCommaText(Leaves(t)[j].1)
    ensures Expected(Flatten(t, [c]), [c], |Flatten(t, [c])|, x) == LeafAt(t, x)
  {
    FlattenedPaths(t, c);
    match LeafAt(t, x)
    case Some(v) => ExpectedAtLeaf(t, c, x, v);
    case None => ExpectedOffLeaf(t, c, x);
  }

  lemma ExpectedAtLeaf(t: Dict, c: char, x: seq<string>, v: Value)
    requires WellFormed(t) && KeysFree(t, c) && |x| > 0 && LeafAt(t, x) == Some(v)
    requires forall j :: 0 <= j < |Leaves(t)| ==> NoCommaText(Leaves(t)[j].1)
    requires PrefixFree(Flatten(t, [c]), [c])
    ensures Expected(Flatten(t, [c]), [c], |Flatten(t, [c])|, x) == Some(v)
  {
    var f := Flatten(t, [c]);
    var sep := [c];
    LeafAtListed(t, x, v);
    ListedPathFree(t, c, x, v);
    var k := Join(x, sep);
    SplitJoin(x, c);
    FlattenGet(t, c, k);
    assert (k, v) in f;
    var j :| 0 <= j < |f| && f[j] == (k, v);
    ExpectedAt(f, sep, |f|, j);
    var li :| 0 <= li < |Leaves(t)| && Leaves(t)[li] == (x, v);
    assert NoCommaText(Leaves(t)[li].1);
  }

  lemma ExpectedOffLeaf(t: Dict, c: char, x: seq<string>)
    requires |x| > 0 && LeafAt(t, x).None?
    requires var f := Flatten(t, [c]);
      forall j :: 0 <= j < |f| ==> LeafAt(t, PathOf(f, [c], j)) == Some(f[j].1)
    ensures Expected(Flatten(t, [c]), [c], |Flatten(t, [c])|, x).None?
  {
    var f := Flatten(t, [c]);
    if Expected(f, [c], |f|, x).Some? {
      var j := ExpectedSome(f, [c], |f|, x);
      assert false;
    }
  }

  /** The one-path trees of the keys `a` and `a.b`. */
  lemma SampleChains(one: Value, two: Value)
    requires !one.Str? && !two.Str?
    ensures ExpandFlattenedPath("a", ".", CommaSplit(one)) == Ok([("a", Leaf(one))])
    ensures ExpandFlattenedPath("a.b", ".", CommaSplit(two)) == Ok([("a", Branch([("b", Leaf(two))]))])
    ensures Lower("a") == "a"
  {
    assert Split("", ".") == [""];
    assert Split("a", ".") == ["a"] by {
      assert "a"[..1] == "a" && "a"[1..] == "";
      assert Split("a", ".") == [['a'] + Split("", ".")[0]] + Split("", ".")[1..];
      assert ['a'] + "" == "a";
    }
    assert Split("b", ".") == ["b"] by {
      assert "b"[..1] == "b" && "b"[1..] == "";
      assert Split("b", ".") == [['b'] + Split("", ".")[0]] + Split("", ".")[1..];
      assert ['b'] + "" == "b";
    }
    assert Split(".b", ".") == ["", "b"] by {
      assert ".b"[..1] == "." && ".b"[1..] == "b";
    }
    assert Split("a.b", ".") == ["a", "b"] by {
      assert "a.b"[..1] == "a" && "a.b"[1..] == ".b";
    }
    ExpandFlattenedPathChain("a", ".", one);
    ExpandFlattenedPathChain("a.b", ".", two);
    LowerIsLowerCase("a");
  }

  /**
   * Where the path of an earlier key begins that of a later one, the
   * earlier entry wins: its leaf, merged over the later nested dict,
   * replaces it.
   */
  lemma EarlierLeafWins()
    ensures ExpandFlattened([("a", Int(1)), ("a.b", Int(2))]) == Ok([("a", Leaf(Int(1)))])
  {
    var one, two := Int(1), Int(2);
    SampleChains(one, two);
    var leafA := [("a", Leaf(one))];
    var nestA := [("a", Branch([("b", Leaf(two))]))];
    var f := [("a", one), ("a.b", two)];
    assert Merge([], leafA) == Ok(leafA);
    assert ExpandPrefix(f, 1, ".") == Ok(leafA);
    assert Merge(leafA, nestA) == MergeEntry(nestA, "a", Leaf(one));
    assert Set(nestA, "a", Leaf(one)) == leafA;
    assert ExpandPrefix(f, 2, ".") == Merge(leafA, nestA);
  }

  /**
   * Where the path of a later key begins that of an earlier one, the
   * earlier nested dict, merged over the later leaf, raises TypeError.
   */
  lemma LaterLeafRaises()
    ensures ExpandFlattened([("a.b", Int(2)), ("a", Int(1))]) == Err(TypeError)
  {
    var one, two := Int(1), Int(2);
    SampleChains(one, two);
    var leafA := [("a", Leaf(one))];
    var nestA := [("a", Branch([("b", Leaf(two))]))];
    var f := [("a.b", two), ("a", one)];
    assert Merge([], nestA) == Ok(nestA);
    assert ExpandPrefix(f, 1, ".") == Ok(nestA);
    assert Merge(nestA, leafA) == MergeEntry(leafA, "a", Branch([("b", Leaf(two))]));
    assert ExpandPrefix(f, 2, ".") == Merge(nestA, leafA);
  }
}
