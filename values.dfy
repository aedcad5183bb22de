// The leaf values a configuration tree holds (cfitall's ConfigValueType:
// bool, int, str, list, Decimal and float, plus the None that `add_keys`
// stores by default), and the Python built-ins the code applies to them.
module Values {
  import opened Wrappers
  import opened Strings

  /**
   * A non-mapping value. `Opaque` stands for a float or a Decimal, which the
   * model does not interpret; `text` is its `str()`.
   */
  datatype Value =
    | Null
    | Bool(b: bool)
    | Int(i: int)
    | Str(s: string)
    | List(items: seq<Value>)
    | Opaque(text: string)

  /** The list of `str` values for a list of strings, e.g. the result of `s.split(',')`. */
  function Strs(parts: seq<string>): (r: seq<Value>)
    ensures |r| == |parts| && forall k :: 0 <= k < |r| ==> r[k] == Str(parts[k])
  {
    if parts == [] then [] else [Str(parts[0])] + Strs(parts[1..])
  }

  /**
   * Python `a == b`. `True == 1` and `False == 0`; lists compare element by
   * element. Two opaque numbers are compared by their text, and an opaque
   * number equals no int (an approximation: in Python `1.0 == 1`).
   */
  predicate PyEq(a: Value, b: Value)
  {
    match a
    case Null => b.Null?
    case Bool(x) => (b.Bool? && b.b == x) || (b.Int? && b.i == (if x then 1 else 0))
    case Int(i) => (b.Int? && b.i == i) || (b.Bool? && i == (if b.b then 1 else 0))
    case Str(s) => b.Str? && b.s == s
    case List(xs) => b.List? && |xs| == |b.items| && forall k :: 0 <= k < |xs| ==> PyEq(xs[k], b.items[k])
    case Opaque(t) => b.Opaque? && b.text == t
  }

  lemma {:induction false} PyEqReflexive(a: Value)
    ensures PyEq(a, a)
  {
    if a.List? {
      forall k | 0 <= k < |a.items| ensures PyEq(a.items[k], a.items[k]) {
        PyEqReflexive(a.items[k]);
      }
    }
  }

  lemma {:induction false} PyEqSymmetric(a: Value, b: Value)
    requires PyEq(a, b)
    ensures PyEq(b, a)
  {
    if a.List? {
      forall k | 0 <= k < |a.items| ensures PyEq(b.items[k], a.items[k]) {
        PyEqSymmetric(a.items[k], b.items[k]);
      }
    }
  }

  /** Python `==` is coarser than identity of values: `True == 1`. */
  lemma PyEqNotIdentity()
    ensures PyEq(Bool(true), Int(1)) && Bool(true) != Int(1)
  {
  }

  /** Python `v in xs` for a list. */
  predicate Contains(xs: seq<Value>, v: Value)
  {
    exists k :: 0 <= k < |xs| && PyEq(xs[k], v)
  }

  /** `sep.join(xs)`: TypeError when an element is not a `str`. */
  function JoinValues(xs: seq<Value>, sep: string): (r: Result<string>)
    ensures r.Ok? <==> forall k :: 0 <= k < |xs| ==> xs[k].Str?
    ensures r.Err? ==> r.error == TypeError
    ensures r.Ok? ==> r.value == Join(seq(|xs|, k requires 0 <= k < |xs| => xs[k].s), sep)
  {
    if xs == [] then Ok("")
    else
      var rest := JoinValues(xs[1..], sep);
      if !xs[0].Str? then Err(TypeError)
      else if rest.Err? then rest
      else
        assert seq(|xs|, k requires 0 <= k < |xs| => xs[k].s)
          == [xs[0].s] + seq(|xs| - 1, k requires 0 <= k < |xs| - 1 => xs[1..][k].s);
        Ok(if |xs| == 1 then xs[0].s else xs[0].s + sep + rest.value)
  }

  /** Joining values that are all strings joins their texts. */
  lemma JoinValuesStrs(parts: seq<string>, sep: string)
    ensures JoinValues(Strs(parts), sep) == Ok(Join(parts, sep))
  {
    var strs := Strs(parts);
    assert seq(|strs|, k requires 0 <= k < |strs| => strs[k].s) == parts;
  }

  /** `bool(v)`; the truth of a float or Decimal is not modelled. */
  function Truthy(v: Value): Outcome<bool>
  {
    match v
    case Null => Returned(false)
    case Bool(b) => Returned(b)
    case Int(i) => Returned(i != 0)
    case Str(s) => Returned(s != "")
    case List(xs) => Returned(xs != [])
    case Opaque(_) => Unmodelled
  }

  /** `int(v)`; truncating a float or Decimal is not modelled. */
  function IntOf(v: Value): Outcome<int>
  {
    match v
    case Null => Raised(TypeError)
    case Bool(b) => Returned(if b then 1 else 0)
    case Int(i) => Returned(i)
    case Str(s) => (match ParseInt(s) case Ok(n) => Returned(n) case Err(e) => Raised(e))
    case List(_) => Raised(TypeError)
    case Opaque(_) => Unmodelled
  }

  /** `list(v)`: a copy of a list, the characters of a string, else TypeError. */
  function ListOf(v: Value): (r: Result<seq<Value>>)
    ensures v.List? ==> r == Ok(v.items)
    ensures v.Str? ==>
              r.Ok? && |r.value| == |v.s| && forall k :: 0 <= k < |v.s| ==> r.value[k] == Str([v.s[k]])
    ensures !v.List? && !v.Str? ==> r == Err(TypeError)
  {
    match v
    case List(xs) => Ok(xs)
    case Str(s) => Ok(seq(|s|, k requires 0 <= k < |s| => Str([s[k]])))
    case _ => Err(TypeError)
  }

  /** `str(v)` for a value that is not a list (a list's repr is not modelled). */
  function StrOf(v: Value): Outcome<string>
  {
    match v
    case Null => Returned("None")
    case Bool(b) => Returned(if b then "True" else "False")
    case Int(i) => Returned(ShowInt(i))
    case Str(s) => Returned(s)
    case List(_) => Unmodelled
    case Opaque(t) => Returned(t)
  }

  /** `int(str(n)) == n` for an int value. */
  lemma IntOfStrOf(n: int)
    ensures IntOf(Str(StrOf(Int(n)).value)) == Returned(n)
  {
    IntOfShowInt(n);
  }

  /** `int(s)` of the decimal text of `n` is `n`. */
  lemma IntOfShowInt(n: int)
    ensures IntOf(Str(ShowInt(n))) == Returned(n)
  {
    ParseShowInt(n);
    IntOfParsed(ShowInt(n), n);
  }

  lemma IntOfParsed(s: string, n: int)
    requires ParseInt(s) == Ok(n)
    ensures IntOf(Str(s)) == Returned(n)
  {
  }

  /**
   * `int()` of a decimal literal: digits with single underscores between
   * them, optionally after a sign, give the number the digits spell.
   */
  lemma IntOfDigits(d: string)
    requires IsDigitGroups(d)
    ensures IntOf(Str(d)) == Returned(DigitsValue(d) as int)
    ensures IntOf(Str("+" + d)) == Returned(DigitsValue(d) as int)
    ensures IntOf(Str("-" + d)) == Returned(-(DigitsValue(d) as int))
  {
    ParseUnsigned(d);
    ParseSigned('+', d);
    ParseSigned('-', d);
    assert "+" + d == ['+'] + d && "-" + d == ['-'] + d;
  }
}
