// The environment-variable provider of cfitall/providers/environment.py:
// variables named `{NAME}{level_separator}...` become configuration
// entries, bracketed values become lists, and "true"/"false" become
// booleans. The process environment is passed in as the sequence of its
// (name, value) pairs, in the order `os.environ` yields them.
module Environment {
  import opened Wrappers
  import opened Strings
  import opened Values
  import opened Tree
  import opened Utils
  import ExpandProperties

  /** The settings of an `EnvironmentProvider`; none of them changes after construction. */
  datatype EnvironmentProvider = EnvironmentProvider(
    name: string,
    levelSeparator: string,
    valueSeparator: string,
    castBool: bool,
    valueSplit: bool)

  /** `name.upper() + level_separator`: the start of every variable the provider reads. */
  function Prefix(p: EnvironmentProvider): string
  {
    Upper(p.name) + p.levelSeparator
  }

  // --------------------------------------------------------- _split_value

  /**
   * `re.split(separator, s)` for a separator without pattern syntax: the
   * pieces between its occurrences. An empty pattern matches at every
   * position, cutting out each character between two empty pieces.
   */
  function SplitPieces(s: string, separator: string): seq<string>
  {
    if separator == [] then [""] + seq(|s|, i requires 0 <= i < |s| => [s[i]]) + [""]
    else Split(s, separator)
  }

  /** The pieces stripped of surrounding whitespace, with those left empty dropped. */
  function KeepNonBlank(pieces: seq<string>): seq<string>
  {
    if pieces == [] then []
    else
      var last := Strip(pieces[|pieces| - 1]);
      KeepNonBlank(pieces[..|pieces| - 1]) + (if last != [] then [last] else [])
  }

  /** `value.startswith("[") and value.endswith("]")`, which a one-character value cannot satisfy. */
  predicate Bracketed(value: string)
  {
    2 <= |value| && StartsWith(value, "[") && EndsWith(value, "]")
  }

  /** The text between the brackets of a bracketed value. */
  function Inside(value: string): string
    requires Bracketed(value)
  {
    value[1..|value| - 1]
  }

  /** `_split_value(value)` */
  function SplitValue(p: EnvironmentProvider, value: string): Value
  {
    if p.valueSplit && Bracketed(value) then List(Strs(KeepNonBlank(SplitPieces(Inside(value), p.valueSeparator))))
    else Str(value)
  }

  method SplitValueLoop(p: EnvironmentProvider, value: string) returns (r: Value)
    ensures r == SplitValue(p, value)
  {
    if p.valueSplit && Bracketed(value) {
      var pieces := SplitPieces(Inside(value), p.valueSeparator);
      var values: seq<string> := [];
      for i := 0 to |pieces|
        invariant values == KeepNonBlank(pieces[..i])
      {
        KeepNonBlankNext(pieces, i);
        var v := Strip(pieces[i]);
        if v != [] {
          values := values + [v];
        }
      }
      assert pieces[..|pieces|] == pieces;
      return List(Strs(values));
    }
    return Str(value);
  }

  lemma KeepNonBlankNext(pieces: seq<string>, i: nat)
    requires i < |pieces|
    ensures KeepNonBlank(pieces[..i + 1]) ==
              KeepNonBlank(pieces[..i]) + if Strip(pieces[i]) != [] then [Strip(pieces[i])] else []
  {
    assert pieces[..i + 1][..i] == pieces[..i];
  }

  /** Every kept piece is non-empty and carries no surrounding whitespace. */
  lemma {:induction false} KeepNonBlankClean(pieces: seq<string>)
    ensures forall j :: 0 <= j < |KeepNonBlank(pieces)| ==>
              KeepNonBlank(pieces)[j] != [] && Strip(KeepNonBlank(pieces)[j]) == KeepNonBlank(pieces)[j]
  {
    if pieces != [] {
      var init, last := pieces[..|pieces| - 1], Strip(pieces[|pieces| - 1]);
      KeepNonBlankClean(init);
      StripIdempotent(pieces[|pieces| - 1]);
      CleanAppend(KeepNonBlank(init), if last != [] then [last] else []);
    }
  }

  lemma CleanAppend(a: seq<string>, b: seq<string>)
    requires forall j :: 0 <= j < |a| ==> a[j] != [] && Strip(a[j]) == a[j]
    requires forall j :: 0 <= j < |b| ==> b[j] != [] && Strip(b[j]) == b[j]
    ensures forall j :: 0 <= j < |a + b| ==> (a + b)[j] != [] && Strip((a + b)[j]) == (a + b)[j]
  {
  }

  /** An item a bracketed list can carry through `_split_value` unchanged. */
  predicate CleanItem(item: string, c: char)
  {
    item != [] && c !in item && !IsSpace(item[0]) && !IsSpace(item[|item| - 1])
  }

  lemma {:induction false} KeepNonBlankKeeps(items: seq<string>, c: char)
    requires forall j :: 0 <= j < |items| ==> CleanItem(items[j], c)
    ensures KeepNonBlank(items) == items
  {
    if items != [] {
      var init := items[..|items| - 1];
      var last := items[|items| - 1];
      assert forall j :: 0 <= j < |init| ==> init[j] == items[j];
      KeepNonBlankKeeps(init, c);
      assert CleanItem(last, c);
      StripKeeps(last);
      assert init + [last] == items;
    }
  }

  /** Pieces that are empty or whitespace only are all dropped. */
  lemma {:induction false} KeepNonBlankBlank(pieces: seq<string>)
    requires forall j :: 0 <= j < |pieces| ==> Strip(pieces[j]) == []
    ensures KeepNonBlank(pieces) == []
  {
    if pieces != [] {
      KeepNonBlankBlank(pieces[..|pieces| - 1]);
    }
  }

  /**
   * With splitting on and a one-character separator, a bracketed join of
   * pieces without the separator becomes the list of those pieces stripped,
   * the blank ones dropped.
   */
  lemma SplitValueJoin(p: EnvironmentProvider, pieces: seq<string>, c: char)
    requires p.valueSplit && p.valueSeparator == [c] && |pieces| > 0
    requires forall j :: 0 <= j < |pieces| ==> c !in pieces[j]
    ensures SplitValue(p, "[" + Join(pieces, [c]) + "]") == List(Strs(KeepNonBlank(pieces)))
  {
    var value := "[" + Join(pieces, [c]) + "]";
    assert Bracketed(value) && Inside(value) == Join(pieces, [c]);
    SplitJoin(pieces, c);
  }

  /**
   * `_split_value` inverts writing a list as `[a,b,c]`: a bracketed join of
   * non-empty items without the separator and without surrounding
   * whitespace splits back into those items; `[]` is the empty list.
   */
  lemma SplitValueRoundTrip(p: EnvironmentProvider, items: seq<string>, c: char)
    requires p.valueSplit && p.valueSeparator == [c]
    requires forall j :: 0 <= j < |items| ==> CleanItem(items[j], c)
    ensures SplitValue(p, "[" + Join(items, [c]) + "]") == List(Strs(items))
  {
    if items == [] {
      var value := "[" + Join(items, [c]) + "]";
      assert Bracketed(value) && Inside(value) == [];
      assert KeepNonBlank(Split([], [c])) == [];
    } else {
      SplitValueJoin(p, items, c);
      KeepNonBlankKeeps(items, c);
    }
  }

  /** Without splitting, or without both brackets, the value stays the string it was. */
  lemma SplitValueUnbracketed(p: EnvironmentProvider, value: string)
    requires !p.valueSplit || !StartsWith(value, "[") || !EndsWith(value, "]")
    ensures SplitValue(p, value) == Str(value)
  {
  }

  // ------------------------------------------------------------ cast_bool

  /** A string that reads "true" or "false" in any case becomes that boolean. */
  function CastString(v: Value): Value
  {
    if v.Str? && Lower(v.s) == "true" then Bool(true)
    else if v.Str? && Lower(v.s) == "false" then Bool(false)
    else v
  }

  /** The casting of `_read_environment` when `cast_bool` is set: of the value, or of each item of a list. */
  function CastBool(v: Value): (r: Value)
    ensures v.List? ==> r.List? && |r.items| == |v.items| &&
                        forall j :: 0 <= j < |v.items| ==> r.items[j] == CastString(v.items[j])
    ensures !v.List? ==> r == CastString(v)
  {
    if v.List? then List(seq(|v.items|, j requires 0 <= j < |v.items| => CastString(v.items[j])))
    else CastString(v)
  }

  /** The value stored for a variable's raw text. */
  function Parse(p: EnvironmentProvider, raw: string): Value
  {
    var v := SplitValue(p, raw);
    if p.castBool then CastBool(v) else v
  }

  /** Only the exact words become booleans; with casting off, "true" stays a string. */
  lemma ParseBool(p: EnvironmentProvider, raw: string)
    requires !p.valueSplit || !Bracketed(raw)
    ensures Parse(p, raw) == if p.castBool && Lower(raw) == "true" then Bool(true)
                             else if p.castBool && Lower(raw) == "false" then Bool(false)
                             else Str(raw)
  {
  }

  // ---------------------------------------------------- _read_environment

  /** The configuration key a variable name stands for, if the variable is the provider's. */
  function EnvKey(p: EnvironmentProvider, name: string): Option<string>
  {
    if StartsWith(name, Prefix(p)) then Some(Lower(name[|Prefix(p)|..])) else None
  }

  /** `_read_environment()` over the first `n` variables of the environment. */
  function ReadPrefix(p: EnvironmentProvider, environ: seq<(string, string)>, n: nat): FlatDict
    requires n <= |environ|
  {
    if n == 0 then []
    else
      var acc := ReadPrefix(p, environ, n - 1);
      match EnvKey(p, environ[n - 1].0)
      case None => acc
      case Some(k) => Set(acc, k, Parse(p, environ[n - 1].1))
  }

  /** `_read_environment()` */
  function ReadEnvironment(p: EnvironmentProvider, environ: seq<(string, string)>): FlatDict
  {
    ReadPrefix(p, environ, |environ|)
  }

  method ReadEnvironmentLoop(p: EnvironmentProvider, environ: seq<(string, string)>) returns (output: FlatDict)
    ensures output == ReadEnvironment(p, environ)
  {
    output := [];
    var prefix := Upper(p.name) + p.levelSeparator;
    for i := 0 to |environ|
      invariant output == ReadPrefix(p, environ, i)
    {
      var (key, value) := environ[i];
      if StartsWith(key, prefix) {
        key := Lower(key[|prefix|..]);
        var v := SplitValueLoop(p, value);
        if p.castBool {
          v := CastBool(v);
        }
        output := Set(output, key, v);
      }
    }
  }

  /** Reference: the parsed value of the last of the first `n` variables standing for `k`. */
  function LastFor(p: EnvironmentProvider, environ: seq<(string, string)>, n: nat, k: string): Option<Value>
    requires n <= |environ|
  {
    if n == 0 then None
    else if EnvKey(p, environ[n - 1].0) == Some(k) then Some(Parse(p, environ[n - 1].1))
    else LastFor(p, environ, n - 1, k)
  }

  lemma {:induction false} ReadPrefixGet(p: EnvironmentProvider, environ: seq<(string, string)>, n: nat, k: string)
    requires n <= |environ|
    ensures Get(ReadPrefix(p, environ, n), k) == LastFor(p, environ, n, k)
  {
    if n > 0 {
      ReadPrefixGet(p, environ, n - 1, k);
      match EnvKey(p, environ[n - 1].0)
      case None =>
      case Some(k') => GetSet(ReadPrefix(p, environ, n - 1), k', Parse(p, environ[n - 1].1), k);
    }
  }

  /**
   * The key `k` holds the parsed value of the last variable whose name is
   * the prefix followed by a name that lower-cases to `k`, and is absent
   * when there is none: other variables are ignored, and a later variable
   * overrides an earlier one that differs only in case.
   */
  lemma ReadEnvironmentGet(p: EnvironmentProvider, environ: seq<(string, string)>, k: string)
    ensures Get(ReadEnvironment(p, environ), k) == LastFor(p, environ, |environ|, k)
  {
    ReadPrefixGet(p, environ, |environ|, k);
  }

  lemma {:induction false} LastForLower(p: EnvironmentProvider, environ: seq<(string, string)>, n: nat, k: string)
    requires n <= |environ| && LastFor(p, environ, n, k).Some?
    ensures IsLowerCase(k)
  {
    if EnvKey(p, environ[n - 1].0) == Some(k) {
      LowerIsLowerCase(environ[n - 1].0[|Prefix(p)|..]);
    } else {
      LastForLower(p, environ, n - 1, k);
    }
  }

  /** Every key read from the environment is lower case. */
  lemma ReadEnvironmentLower(p: EnvironmentProvider, environ: seq<(string, string)>, k: string)
    requires Get(ReadEnvironment(p, environ), k).Some?
    ensures IsLowerCase(k)
  {
    ReadEnvironmentGet(p, environ, k);
    LastForLower(p, environ, |environ|, k);
  }

  // ----------------------------------------------------------------- dict

  /** The `dict` property: the variables read, expanded on the level separator. */
  function DictOf(p: EnvironmentProvider, environ: seq<(string, string)>): Result<Dict>
  {
    ExpandFlattened(ReadEnvironment(p, environ), p.levelSeparator)
  }

  /**
   * A single variable `{PREFIX}a{sep}b...` yields the one path
   * `a, b, ...` of its lower-cased name, ending in its parsed value (a
   * string with a comma before any newline split on the commas).
   */
  lemma ReadOne(p: EnvironmentProvider, name: string, raw: string)
    requires EnvKey(p, name).Some?
    ensures ReadEnvironment(p, [(name, raw)]) == [(EnvKey(p, name).value, Parse(p, raw))]
  {
    assert ReadPrefix(p, [(name, raw)], 0) == [];
  }

  lemma DictOfOne(p: EnvironmentProvider, name: string, raw: string, x: seq<string>)
    requires p.levelSeparator != [] && EnvKey(p, name).Some? && |x| > 0
    ensures DictOf(p, [(name, raw)]).Ok?
    ensures LeafAt(DictOf(p, [(name, raw)]).value, x) ==
              if x == Split(EnvKey(p, name).value, p.levelSeparator)
              then Some(CommaSplit(Parse(p, raw))) else None
  {
    var key := EnvKey(p, name).value;
    var path := Split(key, p.levelSeparator);
    var v := CommaSplit(Parse(p, raw));
    ReadOne(p, name, raw);
    ExpandOne(key, Parse(p, raw), p.levelSeparator);
    ExpandFlattenedPathChain(key, p.levelSeparator, v);
    LeafAtChain(path, v, x);
  }

  /**
   * The environment provider's `dict` over a whole environment: when no
   * read key's path begins another's, it raises nothing; each read key's
   * path holds the comma-split value of the last variable naming that key,
   * and every leaf lies at the path of some read key.
   */
  lemma DictLeafAt(p: EnvironmentProvider, environ: seq<(string, string)>, k: string, x: seq<string>)
    requires |p.levelSeparator| > 0 && |x| > 0
    requires ExpandProperties.PrefixFree(ReadEnvironment(p, environ), p.levelSeparator)
    ensures DictOf(p, environ).Ok?
    ensures var last := LastFor(p, environ, |environ|, k);
            last.Some? ==>
              LeafAt(DictOf(p, environ).value, Split(k, p.levelSeparator)) == Some(CommaSplit(last.value))
    ensures LeafAt(DictOf(p, environ).value, x).Some? ==>
              exists k' :: LastFor(p, environ, |environ|, k').Some? && Split(k', p.levelSeparator) == x
  {
    var sep := p.levelSeparator;
    var f := ReadEnvironment(p, environ);
    forall j | 0 <= j < |f|
      ensures forall i :: 0 <= i < |ExpandProperties.PathOf(f, sep, j)| ==> IsLowerCase(ExpandProperties.PathOf(f, sep, j)[i])
    {
      assert Keys(f)[j] == f[j].0;
      ReadEnvironmentLower(p, environ, f[j].0);
      SplitLower(f[j].0, sep);
    }
    var m := ExpandProperties.ExpandBuilds(f, sep);
    ReadEnvironmentGet(p, environ, k);
    var last := LastFor(p, environ, |environ|, k);
    if last.Some? {
      var j :| 0 <= j < |f| && f[j] == (k, last.value);
      ExpandProperties.ExpectedAt(f, sep, |f|, j);
    }
    if LeafAt(m, x).Some? {
      var l := ExpandProperties.ExpectedSome(f, sep, |f|, x);
      assert Keys(f)[l] == f[l].0;
      ReadEnvironmentGet(p, environ, f[l].0);
    }
  }
}
