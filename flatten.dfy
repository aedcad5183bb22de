// What flattening a tree guarantees: the documented `flatten_dict` files
// every leaf under its joined key path, so a lookup by a dotted key finds
// the leaf at the path the key splits into; `find_keys` finds the first
// matching leaf depth first; and the shipped `flatten_dict` departs from
// the documented one when leaves repeat.
module FlattenProperties {
  import opened Wrappers
  import opened Strings
  import opened Values
  import opened Tree
  import opened Utils

  // ------------------------------------------------------ leaves of a tree

  /** `(x, v)` is a leaf reached through the entry `e`. */
  predicate LeafOfEntry(e: (string, Node), x: seq<string>, v: Value)
  {
    match e.1
    case Leaf(w) => x == [e.0] && w == v
    case Branch(sub) => |x| > 0 && x[0] == e.0 && (x[1..], v) in Leaves(sub)
  }

  lemma UnderMem(k: string, ls: seq<(seq<string>, Value)>, x: seq<string>, v: Value)
    ensures (x, v) in Under(k, ls) <==> |x| > 0 && x[0] == k && (x[1..], v) in ls
  {
    var r := Under(k, ls);
    if (x, v) in r {
      var j :| 0 <= j < |r| && r[j] == (x, v);
      assert x[1..] == ls[j].0;
    }
    if |x| > 0 && x[0] == k && (x[1..], v) in ls {
      var j :| 0 <= j < |ls| && ls[j] == (x[1..], v);
      assert [k] + x[1..] == x;
      assert r[j] == (x, v);
    }
  }

  /** A leaf listed from position `i` is reached through one of the entries from `i` on. */
  lemma {:induction false} ListedFrom(d: Dict, i: nat, x: seq<string>, v: Value) returns (j: nat)
    requires i <= |d| && (x, v) in LeavesFrom(d, i)
    ensures i <= j < |d| && LeafOfEntry(d[j], x, v)
    decreases |d| - i
  {
    var here := match d[i].1
      case Leaf(w) => [([d[i].0], w)]
      case Branch(sub) => Under(d[i].0, LeavesFrom(sub, 0));
    assert LeavesFrom(d, i) == here + LeavesFrom(d, i + 1);
    if (x, v) in here {
      if d[i].1.Branch? {
        UnderMem(d[i].0, LeavesFrom(d[i].1.entries, 0), x, v);
      }
      j := i;
    } else {
      j := ListedFrom(d, i + 1, x, v);
    }
  }

  /** Every leaf reached through an entry from position `i` on is listed from `i`. */
  lemma {:induction false} ListFrom(d: Dict, i: nat, j: nat, x: seq<string>, v: Value)
    requires i <= j < |d| && LeafOfEntry(d[j], x, v)
    ensures (x, v) in LeavesFrom(d, i)
    decreases |d| - i
  {
    var here := match d[i].1
      case Leaf(w) => [([d[i].0], w)]
      case Branch(sub) => Under(d[i].0, LeavesFrom(sub, 0));
    assert LeavesFrom(d, i) == here + LeavesFrom(d, i + 1);
    if j == i {
      if d[i].1.Branch? {
        UnderMem(d[i].0, LeavesFrom(d[i].1.entries, 0), x, v);
      }
      assert (x, v) in here;
    } else {
      ListFrom(d, i + 1, j, x, v);
    }
  }

  /** Every listed leaf has a non-empty path. */
  lemma {:induction false} LeavesNonEmpty(d: Dict, x: seq<string>, v: Value)
    requires (x, v) in Leaves(d)
    ensures |x| > 0
  {
    var j := ListedFrom(d, 0, x, v);
  }

  /** A leaf found by a lookup is listed. */
  lemma {:induction false} LeafAtListed(d: Dict, x: seq<string>, v: Value)
    requires |x| > 0 && LeafAt(d, x) == Some(v)
    ensures (x, v) in Leaves(d)
    decreases |x|
  {
    var node := Get(d, x[0]).value;
    var j :| 0 <= j < |d| && d[j] == (x[0], node);
    if node.Branch? {
      LeafAtListed(node.entries, x[1..], v);
    }
    assert LeafOfEntry(d[j], x, v);
    ListFrom(d, 0, j, x, v);
  }

  lemma GetDistinct<V>(d: seq<(string, V)>, j: nat)
    requires DistinctKeys(d) && j < |d|
    ensures Get(d, d[j].0) == Some(d[j].1)
  {
    if j > 0 {
      GetDistinct(d[1..], j - 1);
    }
  }

  /** In a well-formed tree, every listed leaf is what a lookup of its path finds. */
  lemma {:induction false} ListedLeafAt(d: Dict, x: seq<string>, v: Value)
    requires WellFormed(d) && (x, v) in Leaves(d)
    ensures |x| > 0 && LeafAt(d, x) == Some(v)
    decreases |x|
  {
    var j := ListedFrom(d, 0, x, v);
    GetDistinct(d, j);
    if d[j].1.Branch? {
      LeavesNonEmpty(d[j].1.entries, x[1..], v);
      ListedLeafAt(d[j].1.entries, x[1..], v);
    }
  }

  /** No key, at any level, contains the character `c`. */
  predicate KeysFree(d: Dict, c: char)
    decreases Branch(d)
  {
    forall i :: 0 <= i < |d| ==> c !in d[i].0 && (d[i].1.Branch? ==> KeysFree(d[i].1.entries, c))
  }

  /** The paths of the listed leaves are made of keys of the tree. */
  lemma {:induction false} ListedPathFree(d: Dict, c: char, x: seq<string>, v: Value)
    requires KeysFree(d, c) && (x, v) in Leaves(d)
    ensures forall s :: s in x ==> c !in s
    decreases |x|
  {
    var j := ListedFrom(d, 0, x, v);
    if d[j].1.Branch? {
      ListedPathFree(d[j].1.entries, c, x[1..], v);
      assert x == [x[0]] + x[1..];
    }
  }

  // ----------------------------------------------- the documented flatten

  /** Some entry among the first `n` has a path that joins to `k`. */
  predicate JoinsTo(ls: seq<(seq<string>, Value)>, n: nat, sep: string, k: string)
    requires n <= |ls|
  {
    n > 0 && (Join(ls[n - 1].0, sep) == k || JoinsTo(ls, n - 1, sep, k))
  }

  lemma {:induction false} JoinsToWitness(ls: seq<(seq<string>, Value)>, n: nat, sep: string, k: string) returns (j: nat)
    requires n <= |ls| && JoinsTo(ls, n, sep, k)
    ensures j < n && Join(ls[j].0, sep) == k
  {
    if Join(ls[n - 1].0, sep) == k {
      j := n - 1;
    } else {
      j := JoinsToWitness(ls, n - 1, sep, k);
    }
  }

  lemma {:induction false} JoinsToFrom(ls: seq<(seq<string>, Value)>, n: nat, sep: string, k: string, j: nat)
    requires n <= |ls| && j < n && Join(ls[j].0, sep) == k
    ensures JoinsTo(ls, n, sep, k)
  {
    if j < n - 1 {
      JoinsToFrom(ls, n - 1, sep, k, j);
    }
  }

  /** The last assignment to a key decides the flattened value. */
  lemma {:induction false} FlatFoldGet(ls: seq<(seq<string>, Value)>, n: nat, sep: string, k: string, v: Value)
    requires n <= |ls|
    requires forall j :: 0 <= j < n && Join(ls[j].0, sep) == k ==> ls[j].1 == v
    ensures Get(FlatFold(ls, n, sep), k) == if JoinsTo(ls, n, sep, k) then Some(v) else None
  {
    if n > 0 {
      var prev, kn := FlatFold(ls, n - 1, sep), Join(ls[n - 1].0, sep);
      FlatFoldGet(ls, n - 1, sep, k, v);
      SetGetStep(prev, kn, ls[n - 1].1, k, v, JoinsTo(ls, n - 1, sep, k), JoinsTo(ls, n, sep, k));
    }
  }

  lemma SetGetStep(prev: FlatDict, kn: string, vn: Value, k: string, v: Value, before: bool, now: bool)
    requires Get(prev, k) == (if before then Some(v) else None)
    requires now == (kn == k || before)
    requires kn == k ==> vn == v
    ensures Get(Set(prev, kn, vn), k) == (if now then Some(v) else None)
  {
    GetSet(prev, kn, vn, k);
  }

  /** The pieces of a split on a one-character separator never contain it. */
  lemma {:induction false} SplitFree(s: string, c: char)
    ensures forall part :: part in Split(s, [c]) ==> c !in part
    decreases |s|
  {
    if |s| >= 1 {
      var q := Split(s[1..], [c]);
      SplitFree(s[1..], c);
      if s[..1] == [c] {
        assert Split(s, [c]) == [""] + q;
      } else {
        assert s[0] != c by { assert s[..1] == [s[0]]; }
        assert q[0] in q;
        assert forall part :: part in q[1..] ==> part in q;
      }
    }
  }

  /**
   * The documented `flatten_dict`: in a well-formed tree whose keys do not
   * contain the one-character separator, the flattened value at any key `k`
   * is the leaf at the path `k.split(sep)`, and nothing when no leaf is
   * there.
   */
  lemma FlattenGet(t: Dict, c: char, k: string)
    requires WellFormed(t) && KeysFree(t, c)
    ensures Get(Flatten(t, [c]), k) == LeafAt(t, Split(k, [c]))
  {
    var x := Split(k, [c]);
    var ls := Leaves(t);
    SplitFree(k, c);
    JoinSplit(k, [c]);
    assert ls[..|ls|] == ls;
    forall j | 0 <= j < |ls| && Join(ls[j].0, [c]) == k
      ensures ls[j].0 == x && LeafAt(t, x) == Some(ls[j].1)
    {
      assert ls[j] in ls;
      ListedPathFree(t, c, ls[j].0, ls[j].1);
      ListedLeafAt(t, ls[j].0, ls[j].1);
      SplitJoin(ls[j].0, c);
    }
    match LeafAt(t, x)
    case Some(v) =>
      FlatFoldGet(ls, |ls|, [c], k, v);
      LeafAtListed(t, x, v);
      var j :| 0 <= j < |ls| && ls[j] == (x, v);
      JoinsToFrom(ls, |ls|, [c], k, j);
    case None =>
      FlatFoldGet(ls, |ls|, [c], k, Null);
      if JoinsTo(ls, |ls|, [c], k) {
        var j := JoinsToWitness(ls, |ls|, [c], k);
        assert false;
      }
  }

  // ------------------------------------------------------------ find_keys

  /** Reference for `find_keys`: the path of the first listed leaf equal to `v` in Python's sense. */
  function FirstMatch(ls: seq<(seq<string>, Value)>, v: Value): Option<seq<string>>
  {
    if ls == [] then None
    else if PyEq(ls[0].1, v) then Some(ls[0].0)
    else FirstMatch(ls[1..], v)
  }

  /** The reference finds nothing exactly when no leaf matches, and otherwise the first one that does. */
  lemma {:induction false} FirstMatchIsFirst(ls: seq<(seq<string>, Value)>, v: Value) returns (j: nat)
    ensures FirstMatch(ls, v).None? <==> forall m :: 0 <= m < |ls| ==> !PyEq(ls[m].1, v)
    ensures FirstMatch(ls, v).Some? ==>
              j < |ls| && ls[j].0 == FirstMatch(ls, v).value && PyEq(ls[j].1, v) &&
              forall m :: 0 <= m < j ==> !PyEq(ls[m].1, v)
  {
    if ls == [] {
      j := 0;
    } else if PyEq(ls[0].1, v) {
      j := 0;
    } else {
      var j' := FirstMatchIsFirst(ls[1..], v);
      assert forall m :: 1 <= m < |ls| ==> ls[m] == ls[1..][m - 1];
      j := j' + 1;
    }
  }

  lemma {:induction false} FirstMatchAppend(a: seq<(seq<string>, Value)>, b: seq<(seq<string>, Value)>, v: Value)
    ensures FirstMatch(a + b, v) == if FirstMatch(a, v).Some? then FirstMatch(a, v) else FirstMatch(b, v)
  {
    if a != [] {
      assert (a + b)[0] == a[0];
      assert (a + b)[1..] == a[1..] + b;
      FirstMatchAppend(a[1..], b, v);
    } else {
      assert a + b == b;
    }
  }

  lemma {:induction false} FirstMatchUnder(k: string, ls: seq<(seq<string>, Value)>, v: Value)
    ensures FirstMatch(Under(k, ls), v) ==
              match FirstMatch(ls, v) case Some(p) => Some([k] + p) case None => None
  {
    if ls != [] {
      assert Under(k, ls)[1..] == Under(k, ls[1..]);
      FirstMatchUnder(k, ls[1..], v);
    }
  }

  /** `find_keys` from position `i` is the first matching leaf among those listed from `i`. */
  lemma {:induction false} FindKeysFromFirst(d: Dict, v: Value, i: nat)
    requires i <= |d|
    ensures FindKeysFrom(d, v, i) == FirstMatch(LeavesFrom(d, i), v)
    decreases Branch(d), |d| - i
  {
    if i < |d| {
      FindKeysFromFirst(d, v, i + 1);
      match d[i].1
      case Leaf(x) =>
        FirstMatchAppend([([d[i].0], x)], LeavesFrom(d, i + 1), v);
      case Branch(sub) =>
        FindKeysFromFirst(sub, v, 0);
        FirstMatchUnder(d[i].0, LeavesFrom(sub, 0), v);
        FirstMatchAppend(Under(d[i].0, LeavesFrom(sub, 0)), LeavesFrom(d, i + 1), v);
    }
  }

  /**
   * `find_keys(d, v)`: the key path of the first leaf, depth first in key
   * order, that equals `v` in Python's sense; nothing when no leaf does.
   */
  lemma FindKeysFirst(d: Dict, v: Value)
    ensures FindKeys(d, v) == FirstMatch(Leaves(d), v)
  {
    FindKeysFromFirst(d, v, 0);
  }

  // ---------------------------------------- flatten_dict as written

  /** The values of the listed leaves, in order. */
  function Vals(ls: seq<(seq<string>, Value)>): (r: seq<Value>)
    ensures |r| == |ls| && forall j :: 0 <= j < |ls| ==> r[j] == ls[j].1
  {
    seq(|ls|, j requires 0 <= j < |ls| => ls[j].1)
  }

  /**
   * Values that `extract_values` keeps as they are, scanned in order: none
   * equal in Python's sense to one already collected, none a list.
   */
  predicate Plain(vs: seq<Value>, acc: seq<Value>)
    decreases |vs|
  {
    vs == [] || (!Contains(acc, vs[0]) && !vs[0].List? && Plain(vs[1..], acc + [vs[0]]))
  }

  /** The same condition stated pairwise. */
  predicate PairwisePlain(vs: seq<Value>, acc: seq<Value>)
  {
    (forall i, j :: 0 <= i < j < |vs| ==> !PyEq(vs[i], vs[j])) &&
    (forall i, m :: 0 <= i < |vs| && 0 <= m < |acc| ==> !PyEq(acc[m], vs[i])) &&
    (forall i :: 0 <= i < |vs| ==> !vs[i].List?)
  }

  /**
   * `Plain` holds exactly when no two of the values are equal in Python's
   * sense, none equals one of `acc` and none is a list.
   */
  lemma {:induction false} PlainPairwise(vs: seq<Value>, acc: seq<Value>)
    ensures Plain(vs, acc) <==> PairwisePlain(vs, acc)
    decreases |vs|
  {
    if vs != [] {
      var x, b := vs[0], vs[1..];
      PlainPairwise(b, acc + [x]);
      PairwiseHead(x, b, acc);
      assert vs == [x] + b;
    }
  }

  lemma PairwiseHead(x: Value, b: seq<Value>, acc: seq<Value>)
    ensures PairwisePlain([x] + b, acc) <==> !Contains(acc, x) && !x.List? && PairwisePlain(b, acc + [x])
  {
    var vs := [x] + b;
    var acc' := acc + [x];
    assert forall i :: 0 <= i < |b| ==> vs[i + 1] == b[i];
    assert forall m :: 0 <= m < |acc| ==> acc'[m] == acc[m];
    assert acc'[|acc|] == x && vs[0] == x;
    if PairwisePlain(vs, acc) {
      forall i, m | 0 <= i < |b| && 0 <= m < |acc'|
        ensures !PyEq(acc'[m], b[i])
      {
        if m == |acc| {
          assert !PyEq(vs[0], vs[i + 1]);
        } else {
          assert !PyEq(acc[m], vs[i + 1]);
        }
      }
      forall i, j | 0 <= i < j < |b|
        ensures !PyEq(b[i], b[j])
      {
        assert !PyEq(vs[i + 1], vs[j + 1]);
      }
    }
    if !Contains(acc, x) && !x.List? && PairwisePlain(b, acc') {
      forall i, j | 0 <= i < j < |vs|
        ensures !PyEq(vs[i], vs[j])
      {
        if i == 0 {
          assert !PyEq(acc'[|acc|], b[j - 1]);
        } else {
          assert !PyEq(b[i - 1], b[j - 1]);
        }
      }
      forall i, m | 0 <= i < |vs| && 0 <= m < |acc|
        ensures !PyEq(acc[m], vs[i])
      {
        if i > 0 {
          assert !PyEq(acc'[m], b[i - 1]);
        }
      }
    }
  }

  lemma {:induction false} PlainSplit(a: seq<Value>, b: seq<Value>, acc: seq<Value>)
    requires Plain(a + b, acc)
    ensures Plain(a, acc) && Plain(b, acc + a)
    decreases |a|
  {
    if a != [] {
      var x := a[0];
      assert a + b == [x] + (a[1..] + b);
      PlainHead(x, a[1..] + b, acc);
      PlainSplit(a[1..], b, acc + [x]);
      assert acc + [x] + a[1..] == acc + a;
      assert a == [x] + a[1..];
    } else {
      assert a + b == b && acc + a == acc;
    }
  }

  lemma PlainHead(x: Value, b: seq<Value>, acc: seq<Value>)
    requires Plain([x] + b, acc)
    ensures !Contains(acc, x) && !x.List? && Plain(b, acc + [x])
  {
    assert ([x] + b)[0] == x && ([x] + b)[1..] == b;
  }

  lemma ValsAppend(a: seq<(seq<string>, Value)>, b: seq<(seq<string>, Value)>)
    ensures Vals(a + b) == Vals(a) + Vals(b)
  {
  }

  lemma ValsUnder(k: string, ls: seq<(seq<string>, Value)>)
    ensures Vals(Under(k, ls)) == Vals(ls)
  {
    assert forall j :: 0 <= j < |ls| ==> Vals(Under(k, ls))[j] == Vals(ls)[j];
  }

  lemma LeafStep(d: Dict, i: nat, x: Value)
    requires i < |d| && d[i].1 == Leaf(x)
    ensures Vals(LeavesFrom(d, i)) == [x] + Vals(LeavesFrom(d, i + 1))
  {
    assert LeavesFrom(d, i) == [([d[i].0], x)] + LeavesFrom(d, i + 1);
    ValsAppend([([d[i].0], x)], LeavesFrom(d, i + 1));
  }

  lemma BranchStep(d: Dict, i: nat, sub: Dict)
    requires i < |d| && d[i].1 == Branch(sub)
    ensures Vals(LeavesFrom(d, i)) == Vals(LeavesFrom(sub, 0)) + Vals(LeavesFrom(d, i + 1))
  {
    var here := Under(d[i].0, LeavesFrom(sub, 0));
    assert LeavesFrom(d, i) == here + LeavesFrom(d, i + 1);
    ValsAppend(here, LeavesFrom(d, i + 1));
    ValsUnder(d[i].0, LeavesFrom(sub, 0));
  }

  lemma ExtractLeafStep(d: Dict, i: nat, x: Value, acc: seq<Value>, rest: seq<Value>)
    requires i < |d| && d[i].1 == Leaf(x) && !Contains(acc, x) && !x.List?
    requires ExtractFrom(d, i + 1, acc + [x]) == Ok(acc + [x] + rest)
    ensures ExtractFrom(d, i, acc) == Ok(acc + ([x] + rest))
  {
    AppendAssoc(acc, [x], rest);
  }

  lemma AppendAssoc(a: seq<Value>, b: seq<Value>, c: seq<Value>)
    ensures a + b + c == a + (b + c)
  {
  }

  lemma ExtractBranchStep(d: Dict, i: nat, sub: Dict, acc: seq<Value>, here: seq<Value>)
    requires i < |d| && d[i].1 == Branch(sub)
    requires ExtractFrom(sub, 0, acc) == Ok(acc + here)
    ensures ExtractFrom(d, i, acc) == ExtractFrom(d, i + 1, acc + here)
  {
  }

  /** With plain leaves, `extract_values` collects every leaf value in order. */
  lemma {:induction false} ExtractFromPlain(d: Dict, i: nat, acc: seq<Value>)
    requires i <= |d| && Plain(Vals(LeavesFrom(d, i)), acc)
    ensures ExtractFrom(d, i, acc) == Ok(acc + Vals(LeavesFrom(d, i)))
    decreases Branch(d), |d| - i, 1
  {
    if i < |d| {
      match d[i].1
      case Leaf(x) => ExtractLeafPlain(d, i, x, acc);
      case Branch(sub) => ExtractBranchPlain(d, i, sub, acc);
    } else {
      assert acc + Vals(LeavesFrom(d, i)) == acc;
    }
  }

  lemma {:induction false} ExtractLeafPlain(d: Dict, i: nat, x: Value, acc: seq<Value>)
    requires i < |d| && d[i].1 == Leaf(x) && Plain(Vals(LeavesFrom(d, i)), acc)
    ensures ExtractFrom(d, i, acc) == Ok(acc + Vals(LeavesFrom(d, i)))
    decreases Branch(d), |d| - i, 0
  {
    var rest := Vals(LeavesFrom(d, i + 1));
    LeafStep(d, i, x);
    PlainHead(x, rest, acc);
    ExtractFromPlain(d, i + 1, acc + [x]);
    ExtractLeafStep(d, i, x, acc, rest);
  }

  lemma {:induction false} ExtractBranchPlain(d: Dict, i: nat, sub: Dict, acc: seq<Value>)
    requires i < |d| && d[i].1 == Branch(sub) && Plain(Vals(LeavesFrom(d, i)), acc)
    ensures ExtractFrom(d, i, acc) == Ok(acc + Vals(LeavesFrom(d, i)))
    decreases Branch(d), |d| - i, 0
  {
    var rest := Vals(LeavesFrom(d, i + 1));
    var here := Vals(LeavesFrom(sub, 0));
    BranchStep(d, i, sub);
    PlainSplit(here, rest, acc);
    ExtractFromPlain(sub, 0, acc);
    ExtractFromPlain(d, i + 1, acc + here);
    ExtractBranchStep(d, i, sub, acc, here);
    AppendAssoc(acc, here, rest);
  }

  /** A value that the comma rewriting of `flatten_dict` leaves alone. */
  predicate NoCommaText(v: Value)
  {
    !(v.Str? && HasCommaBeforeNewline(v.s))
  }

  /** With pairwise unequal leaves, each leaf is the first match for its own value. */
  lemma {:induction false} FirstMatchOwn(ls: seq<(seq<string>, Value)>, j: nat)
    requires j < |ls| && forall i :: 0 <= i < j ==> !PyEq(ls[i].1, ls[j].1)
    ensures FirstMatch(ls, ls[j].1) == Some(ls[j].0)
  {
    if j == 0 {
      PyEqReflexive(ls[0].1);
    } else {
      assert !PyEq(ls[0].1, ls[j].1);
      assert forall i :: 0 <= i < j - 1 ==> ls[1..][i] == ls[i + 1];
      FirstMatchOwn(ls[1..], j - 1);
    }
  }

  /** One step of `flatten_dict` on a leaf that is the first match for its own value. */
  lemma FlattenStepOwn(t: Dict, sep: string, acc: FlatDict, leaf: (seq<string>, Value))
    requires NoCommaText(leaf.1) && !leaf.1.List?
    requires FirstMatch(Leaves(t), leaf.1) == Some(leaf.0)
    ensures FlattenStep(t, sep, acc, leaf.1) == Ok(Set(acc, Join(leaf.0, sep), leaf.1))
  {
    assert CommaSplit(leaf.1) == leaf.1;
    FindKeysFirst(t, leaf.1);
  }

  lemma {:induction false} FlattenStepsPlain(t: Dict, sep: string, n: nat)
    requires n <= |Leaves(t)|
    requires Plain(Vals(Leaves(t)), [])
    requires forall j :: 0 <= j < |Leaves(t)| ==> NoCommaText(Leaves(t)[j].1)
    ensures FlattenSteps(t, sep, Vals(Leaves(t)), n) == Ok(FlatFold(Leaves(t), n, sep))
  {
    if n > 0 {
      var ls := Leaves(t);
      var acc := FlatFold(ls, n - 1, sep);
      FlattenStepsPlain(t, sep, n - 1);
      assert NoCommaText(ls[n - 1].1);
      PlainStep(t, sep, acc, n - 1);
      FlattenStepsLast(t, sep, Vals(ls), n, acc, Ok(Set(acc, Join(ls[n - 1].0, sep), ls[n - 1].1)));
    }
  }

  /** A leaf of plain leaves is the first match for its own value, so its step records it. */
  lemma PlainStep(t: Dict, sep: string, acc: FlatDict, j: nat)
    requires j < |Leaves(t)| && Plain(Vals(Leaves(t)), []) && NoCommaText(Leaves(t)[j].1)
    ensures FlattenStep(t, sep, acc, Vals(Leaves(t))[j]) == Ok(Set(acc, Join(Leaves(t)[j].0, sep), Leaves(t)[j].1))
  {
    var ls := Leaves(t);
    PlainAt(ls, j);
    FirstMatchOwn(ls, j);
    FlattenStepOwn(t, sep, acc, ls[j]);
  }

  /** What `Plain` says about the leaf at `j` and those before it. */
  lemma PlainAt(ls: seq<(seq<string>, Value)>, j: nat)
    requires j < |ls| && Plain(Vals(ls), [])
    ensures !ls[j].1.List?
    ensures forall i :: 0 <= i < j ==> !PyEq(ls[i].1, ls[j].1)
  {
    var vs := Vals(ls);
    PlainPairwise(vs, []);
    assert vs[j] == ls[j].1;
    forall i | 0 <= i < j
      ensures !PyEq(ls[i].1, ls[j].1)
    {
      assert !PyEq(vs[i], vs[j]);
    }
  }

  /** The last of `n` steps of `flatten_dict` as written. */
  lemma FlattenStepsLast(t: Dict, sep: string, vals: seq<Value>, n: nat, acc: FlatDict, r: Result<FlatDict>)
    requires 0 < n <= |vals| && FlattenSteps(t, sep, vals, n - 1) == Ok(acc)
    requires FlattenStep(t, sep, acc, vals[n - 1]) == r
    ensures FlattenSteps(t, sep, vals, n) == r
  {
  }

  /**
   * `flatten_dict` as written agrees with its documented contract when
   * nothing is lost on the way: the leaves are pairwise unequal in
   * Python's sense, none is a list and none is a string with a comma
   * before its first newline.
   */
  lemma FlattenAgrees(t: Dict, sep: string)
    requires Plain(Vals(Leaves(t)), [])
    requires forall j :: 0 <= j < |Leaves(t)| ==> NoCommaText(Leaves(t)[j].1)
    ensures FlattenAsWritten(t, sep) == Ok(Flatten(t, sep))
  {
    ExtractFromPlain(t, 0, []);
    assert [] + Vals(Leaves(t)) == Vals(Leaves(t));
    FlattenStepsPlain(t, sep, |Leaves(t)|);
  }

  /**
   * Two leaves holding the same value collapse in `flatten_dict` as
   * written: `{"a": 1, "b": 1}` flattens to `{"a": 1}`, while the
   * documented flattening keeps `"b"`.
   */
  lemma FlattenCollapses()
    ensures FlattenAsWritten([("a", Leaf(Int(1))), ("b", Leaf(Int(1)))]) == Ok([("a", Int(1))])
    ensures Flatten([("a", Leaf(Int(1))), ("b", Leaf(Int(1)))]) == [("a", Int(1)), ("b", Int(1))]
  {
    var t := [("a", Leaf(Int(1))), ("b", Leaf(Int(1)))];
    assert LeavesFrom(t, 2) == [];
    assert LeavesFrom(t, 1) == [(["b"], Int(1))];
    assert Leaves(t) == [(["a"], Int(1)), (["b"], Int(1))];
    assert t[1].1 == Leaf(Int(1)) && t[0].1 == Leaf(Int(1));
    assert ExtractFrom(t, 2, [Int(1)]) == Ok([Int(1)]);
    assert PyEq([Int(1)][0], Int(1));
    assert Contains([Int(1)], Int(1));
    assert ExtractFrom(t, 1, [Int(1)]) == Ok([Int(1)]);
    assert !Contains([], Int(1));
    assert [] + [Int(1)] == [Int(1)];
    assert ExtractValues(t) == Ok([Int(1)]);
    assert FindKeys(t, Int(1)) == Some(["a"]);
    assert Join(["a"], ".") == "a";
    assert Join(["b"], ".") == "b";
  }
}
