// Python `str` operations used by cfitall, on `string` (sequences of code
// points). Case mapping covers ASCII letters only.
module Strings {
  import opened Wrappers

  function LowerChar(c: char): char
  {
    if 'A' <= c <= 'Z' then (c as int + 32) as char else c
  }

  function UpperChar(c: char): char
  {
    if 'a' <= c <= 'z' then (c as int - 32) as char else c
  }

  /** `s.lower()` */
  function Lower(s: string): string
  {
    seq(|s|, i requires 0 <= i < |s| => LowerChar(s[i]))
  }

  /** `s.upper()` */
  function Upper(s: string): string
  {
    seq(|s|, i requires 0 <= i < |s| => UpperChar(s[i]))
  }

  /** `s` has no upper-case letter, i.e. `s.lower() == s`. */
  predicate IsLowerCase(s: string)
  {
    forall i :: 0 <= i < |s| ==> !('A' <= s[i] <= 'Z')
  }

  lemma LowerIsLowerCase(s: string)
    ensures IsLowerCase(Lower(s))
    ensures IsLowerCase(s) <==> Lower(s) == s
  {
    if IsLowerCase(s) {
      assert forall i :: 0 <= i < |s| ==> Lower(s)[i] == s[i];
    } else {
      var i :| 0 <= i < |s| && 'A' <= s[i] <= 'Z';
      assert Lower(s)[i] != s[i];
    }
  }

  lemma LowerUpper(s: string)
    ensures Lower(Upper(s)) == Lower(s)
  {
    assert forall i :: 0 <= i < |s| ==> Lower(Upper(s))[i] == Lower(s)[i];
  }

  lemma LowerAppend(a: string, b: string)
    ensures Lower(a + b) == Lower(a) + Lower(b)
  {
    assert forall i :: 0 <= i < |a + b| ==> Lower(a + b)[i] == (Lower(a) + Lower(b))[i];
  }

  lemma UpperAppend(a: string, b: string)
    ensures Upper(a + b) == Upper(a) + Upper(b)
  {
    assert forall i :: 0 <= i < |a + b| ==> Upper(a + b)[i] == (Upper(a) + Upper(b))[i];
  }

  /** `s.startswith(p)` */
  predicate StartsWith(s: string, p: string)
  {
    |p| <= |s| && s[..|p|] == p
  }

  /** `s.endswith(p)` */
  predicate EndsWith(s: string, p: string)
  {
    |p| <= |s| && s[|s| - |p|..] == p
  }

  /** The characters for which Python's `str.isspace()` holds. */
  predicate IsSpace(c: char)
  {
    ('\t' <= c <= '\r') || ('\U{1c}' <= c <= ' ') || c == '\U{85}' || c == '\U{a0}'
    || c == '\U{1680}' || ('\U{2000}' <= c <= '\U{200a}') || c == '\U{2028}' || c == '\U{2029}'
    || c == '\U{202f}' || c == '\U{205f}' || c == '\U{3000}'
  }

  /** `s.lstrip()`: the longest suffix of `s` that does not start with whitespace. */
  function TrimLeft(s: string): (r: string)
    ensures |r| <= |s| && r == s[|s| - |r|..]
    ensures forall k :: 0 <= k < |s| - |r| ==> IsSpace(s[k])
    ensures r == [] || !IsSpace(r[0])
  {
    if s != [] && IsSpace(s[0]) then TrimLeft(s[1..]) else s
  }

  /** `s.rstrip()`: the longest prefix of `s` that does not end with whitespace. */
  function TrimRight(s: string): (r: string)
    ensures |r| <= |s| && r == s[..|r|]
    ensures forall k :: |r| <= k < |s| ==> IsSpace(s[k])
    ensures r == [] || !IsSpace(r[|r| - 1])
  {
    if s != [] && IsSpace(s[|s| - 1]) then TrimRight(s[..|s| - 1]) else s
  }

  /** `s.strip()` */
  function Strip(s: string): string
  {
    TrimRight(TrimLeft(s))
  }

  /**
   * `s.strip()` removes exactly the surrounding whitespace: the result is a
   * slice of `s`, everything cut away is whitespace, and the result neither
   * starts nor ends with whitespace.
   */
  lemma StripSlice(s: string) returns (i: nat, j: nat)
    ensures i <= j <= |s| && Strip(s) == s[i..j]
    ensures forall k :: 0 <= k < i || j <= k < |s| ==> IsSpace(s[k])
    ensures Strip(s) == [] || (!IsSpace(Strip(s)[0]) && !IsSpace(Strip(s)[|Strip(s)| - 1]))
  {
    var l := TrimLeft(s);
    var r := TrimRight(l);
    i, j := TrimmedSlice(s, l, r);
  }

  /**
   * A suffix `l` of `s` after whitespace, not starting with whitespace, and
   * a prefix `r` of `l` before whitespace, not ending with whitespace: `r`
   * is the slice of `s` between the two cuts.
   */
  lemma TrimmedSlice(s: string, l: string, r: string) returns (i: nat, j: nat)
    requires |l| <= |s| && l == s[|s| - |l|..]
    requires forall k :: 0 <= k < |s| - |l| ==> IsSpace(s[k])
    requires l == [] || !IsSpace(l[0])
    requires |r| <= |l| && r == l[..|r|]
    requires forall k :: |r| <= k < |l| ==> IsSpace(l[k])
    requires r == [] || !IsSpace(r[|r| - 1])
    ensures i <= j <= |s| && r == s[i..j]
    ensures forall k :: 0 <= k < i || j <= k < |s| ==> IsSpace(s[k])
    ensures r == [] || (!IsSpace(r[0]) && !IsSpace(r[|r| - 1]))
  {
    i := |s| - |l|;
    j := i + |r|;
    forall k | j <= k < |s|
      ensures IsSpace(s[k])
    {
      assert s[k] == l[k - i];
    }
    if r != [] {
      assert r[0] == l[0];
    }
  }

  /** A string that neither starts nor ends with whitespace is its own `strip()`. */
  lemma StripKeeps(s: string)
    requires s != [] && !IsSpace(s[0]) && !IsSpace(s[|s| - 1])
    ensures Strip(s) == s
  {
    assert TrimLeft(s) == s;
  }

  /** `s.strip().strip() == s.strip()` */
  lemma StripIdempotent(s: string)
    ensures Strip(Strip(s)) == Strip(s)
  {
  }

  // ---------------------------------------------------------------- split

  /**
   * `s.split(sep)` for a non-empty `sep` (Python raises ValueError for an
   * empty one): the pieces between the non-overlapping occurrences of `sep`,
   * found from the left.
   */
  function Split(s: string, sep: string): (r: seq<string>)
    requires |sep| > 0
    ensures |r| > 0
    decreases |s|
  {
    if |s| < |sep| then [s]
    else if s[..|sep|] == sep then [""] + Split(s[|sep|..], sep)
    else var q := Split(s[1..], sep); [[s[0]] + q[0]] + q[1..]
  }

  /** Every piece of a lower-case string is lower case. */
  lemma {:induction false} SplitLower(s: string, sep: string)
    requires |sep| > 0 && IsLowerCase(s)
    ensures forall i :: 0 <= i < |Split(s, sep)| ==> IsLowerCase(Split(s, sep)[i])
    decreases |s|
  {
    if |s| < |sep| {
    } else if s[..|sep|] == sep {
      SplitLower(s[|sep|..], sep);
    } else {
      SplitLower(s[1..], sep);
      var q := Split(s[1..], sep);
      assert IsLowerCase([s[0]] + q[0]);
    }
  }

  /** `sep.join(parts)` */
  function Join(parts: seq<string>, sep: string): string
  {
    if |parts| == 0 then ""
    else if |parts| == 1 then parts[0]
    else parts[0] + sep + Join(parts[1..], sep)
  }

  lemma JoinCons(p: string, q: seq<string>, sep: string)
    requires |q| > 0
    ensures Join([p] + q, sep) == p + sep + Join(q, sep)
  {
    assert ([p] + q)[1..] == q;
  }

  lemma JoinPrepend(p: string, q: seq<string>, sep: string)
    requires |q| > 0
    ensures Join([p + q[0]] + q[1..], sep) == p + Join(q, sep)
  {
  }

  /** Joining the pieces of a split with the same separator gives back the string. */
  lemma {:induction false} JoinSplit(s: string, sep: string)
    requires |sep| > 0
    ensures Join(Split(s, sep), sep) == s
    decreases |s|
  {
    if |s| >= |sep| {
      if s[..|sep|] == sep {
        var q := Split(s[|sep|..], sep);
        JoinSplit(s[|sep|..], sep);
        JoinCons("", q, sep);
        assert s == s[..|sep|] + s[|sep|..];
      } else {
        var q := Split(s[1..], sep);
        JoinSplit(s[1..], sep);
        JoinPrepend([s[0]], q, sep);
        assert s == [s[0]] + s[1..];
      }
    }
  }

  /** A first character other than the separator joins the first piece. */
  lemma SplitCons(x: char, s: string, c: char)
    requires x != c
    ensures var q := Split(s, [c]);
      Split([x] + s, [c]) == [[x] + q[0]] + q[1..]
  {
    var t := [x] + s;
    assert t[..1] == [x] && t[1..] == s && t[0] == x;
  }

  /** A leading separator closes an empty first piece. */
  lemma SplitSep(s: string, c: char)
    ensures Split([c] + s, [c]) == [""] + Split(s, [c])
  {
    var t := [c] + s;
    assert t[..1] == [c] && t[1..] == s;
  }

  /** A prefix free of the separator character joins the first piece. */
  lemma {:induction false} SplitPrefix(p: string, s: string, c: char)
    requires c !in p
    ensures var q := Split(s, [c]);
      Split(p + s, [c]) == [p + q[0]] + q[1..]
    decreases |p|
  {
    if p != [] {
      var q := Split(s, [c]);
      var r := Split(p[1..] + s, [c]);
      SplitPrefix(p[1..], s, c);
      assert p + s == [p[0]] + (p[1..] + s);
      SplitCons(p[0], p[1..] + s, c);
      assert r[0] == p[1..] + q[0] && r[1..] == q[1..];
      assert [p[0]] + (p[1..] + q[0]) == p + q[0];
    } else {
      var q := Split(s, [c]);
      assert p + s == s && p + q[0] == q[0];
    }
  }

  /**
   * Splitting on a one-character separator undoes a join whose parts do not
   * contain that character.
   */
  lemma {:induction false} SplitJoin(parts: seq<string>, c: char)
    requires |parts| > 0
    requires forall j :: 0 <= j < |parts| ==> c !in parts[j]
    ensures Split(Join(parts, [c]), [c]) == parts
  {
    var p := parts[0];
    if |parts| == 1 {
      SplitPrefix(p, "", c);
      assert p + "" == p;
    } else {
      var rest := Join(parts[1..], [c]);
      assert Join(parts, [c]) == p + ([c] + rest);
      SplitJoin(parts[1..], c);
      SplitSep(rest, c);
      SplitPrefix(p, [c] + rest, c);
      assert p + "" == p;
      assert parts == [p] + parts[1..];
    }
  }

  /** `s.replace(c, r)` for a one-character `c`. */
  function ReplaceChar(s: string, c: char, r: string): string
  {
    if s == [] then [] else (if s[0] == c then r else [s[0]]) + ReplaceChar(s[1..], c, r)
  }

  /** Lower-casing commutes with replacing a character that is not a letter. */
  lemma {:induction false} LowerReplace(s: string, c: char, r: string)
    requires !('a' <= c <= 'z') && !('A' <= c <= 'Z')
    ensures Lower(ReplaceChar(s, c, r)) == ReplaceChar(Lower(s), c, Lower(r))
  {
    if s != [] {
      LowerReplace(s[1..], c, r);
      LowerAppend(if s[0] == c then r else [s[0]], ReplaceChar(s[1..], c, r));
      assert Lower(s) == [LowerChar(s[0])] + Lower(s[1..]);
    }
  }


  /** `s.replace(c, r) == r.join(s.split(c))` */
  lemma {:induction false} ReplaceIsSplitJoin(s: string, c: char, r: string)
    ensures ReplaceChar(s, c, r) == Join(Split(s, [c]), r)
  {
    if s != [] {
      var t := s[1..];
      assert s == [s[0]] + t;
      ReplaceIsSplitJoin(t, c, r);
      if s[0] == c {
        SplitSep(t, c);
        JoinCons("", Split(t, [c]), r);
      } else {
        SplitCons(s[0], t, c);
        JoinPrepend([s[0]], Split(t, [c]), r);
      }
    }
  }

  // --------------------------------------------------- comma regex of utils

  /**
   * `re.match(r'.*,(.*,)*.*', s)` succeeds: `.` does not match a newline, so
   * the pattern matches exactly when a comma comes before the first newline.
   */
  predicate HasCommaBeforeNewline(s: string)
  {
    s != [] && s[0] != '\n' && (s[0] == ',' || HasCommaBeforeNewline(s[1..]))
  }

  lemma {:induction false} HasCommaBeforeNewlineIff(s: string)
    ensures HasCommaBeforeNewline(s) <==>
      exists i :: 0 <= i < |s| && s[i] == ',' && '\n' !in s[..i]
  {
    if s != [] && s[0] != '\n' && s[0] != ',' {
      HasCommaBeforeNewlineIff(s[1..]);
      if HasCommaBeforeNewline(s) {
        var i :| 0 <= i < |s[1..]| && s[1..][i] == ',' && '\n' !in s[1..][..i];
        assert s[..i + 1] == [s[0]] + s[1..][..i];
      }
      if exists i :: 0 <= i < |s| && s[i] == ',' && '\n' !in s[..i] {
        var i :| 0 <= i < |s| && s[i] == ',' && '\n' !in s[..i];
        assert i > 0;
        assert s[..i] == [s[0]] + s[1..][..i - 1];
      }
    } else if s != [] && s[0] == '\n' {
      forall i | 0 <= i < |s| && s[i] == ','
        ensures '\n' in s[..i]
      {
        assert s[..i][0] == '\n';
      }
    } else if s != [] {
      assert s[..0] == [];
    }
  }

  // ------------------------------------------------------------ int(str)

  predicate IsDigit(c: char) { '0' <= c <= '9' }

  /**
   * The body of a base-10 Python integer literal: ASCII digits, with single
   * underscores allowed between digits.
   */
  predicate IsDigitGroups(s: string)
  {
    |s| > 0 && IsDigit(s[0]) && IsDigit(s[|s| - 1])
    && (forall k :: 0 <= k < |s| ==> IsDigit(s[k]) || s[k] == '_')
    && (forall k :: 0 < k < |s| && s[k] == '_' ==> s[k - 1] != '_')
  }

  /** The value of a string of digits, underscores skipped. */
  function DigitsValue(s: string): nat
  {
    if s == [] then 0
    else if s[|s| - 1] == '_' then DigitsValue(s[..|s| - 1])
    else DigitsValue(s[..|s| - 1]) * 10 + DigitOf(s[|s| - 1])
  }

  function DigitOf(c: char): nat
  {
    if IsDigit(c) then c as int - '0' as int else 0
  }

  /** `int(s)` for a `str` argument in base 10. */
  function ParseInt(s: string): Result<int>
  {
    var t := Strip(s);
    if |t| > 0 && (t[0] == '+' || t[0] == '-') then
      if IsDigitGroups(t[1..]) then
        var v: int := DigitsValue(t[1..]);
        Ok(if t[0] == '-' then -v else v)
      else Err(ValueError)
    else if IsDigitGroups(t) then Ok(DigitsValue(t))
    else Err(ValueError)
  }

  /** `str(n)` for a non-negative `int`. */
  function ShowNat(n: nat): (r: string)
    ensures |r| > 0 && forall k :: 0 <= k < |r| ==> IsDigit(r[k])
  {
    if n < 10 then [('0' as int + n) as char]
    else ShowNat(n / 10) + [('0' as int + n % 10) as char]
  }

  /** `str(n)` for an `int`. */
  function ShowInt(n: int): string
  {
    if n < 0 then "-" + ShowNat(-n) else ShowNat(n)
  }

  lemma {:induction false} DigitsValueShowNat(n: nat)
    ensures DigitsValue(ShowNat(n)) == n
  {
    if n >= 10 {
      var s := ShowNat(n);
      assert s[..|s| - 1] == ShowNat(n / 10);
      DigitsValueShowNat(n / 10);
    }
  }

  /** `int(str(n)) == n` */
  lemma ParseShowInt(n: int)
    ensures ParseInt(ShowInt(n)) == Ok(n)
  {
    var m: nat := if n < 0 then -n else n;
    var d := ShowNat(m);
    DigitsValueShowNat(m);
    assert IsDigitGroups(d);
    if n < 0 {
      ParseSigned('-', d);
      assert ShowInt(n) == ['-'] + d;
    } else {
      ParseUnsigned(d);
    }
  }

  /** Digit groups parse as their value. */
  lemma ParseUnsigned(d: string)
    requires IsDigitGroups(d)
    ensures ParseInt(d) == Ok(DigitsValue(d))
  {
    StripKeeps(d);
  }

  /** A sign followed by digit groups parses as the signed value of the digits. */
  lemma ParseSigned(sign: char, d: string)
    requires sign == '-' || sign == '+'
    requires IsDigitGroups(d)
    ensures ParseInt([sign] + d) == Ok(if sign == '-' then -(DigitsValue(d) as int) else DigitsValue(d))
  {
    var s := [sign] + d;
    SignedEnds(sign, d);
    StripKeeps(s);
  }

  lemma SignedEnds(sign: char, d: string)
    requires sign == '-' || sign == '+'
    requires IsDigitGroups(d)
    ensures var s := [sign] + d;
      s != [] && !IsSpace(s[0]) && !IsSpace(s[|s| - 1]) && s[0] == sign && s[1..] == d
  {
    var s := [sign] + d;
    assert s[|s| - 1] == d[|d| - 1];
  }
}
