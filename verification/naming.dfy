/**
 * Names of the created columns: the explicit `new_variables_names`, or
 * `"<function>_<var1>_..._<varN>"` derived from each function and the
 * input variables.
 */
module Naming {
  import opened Wrappers
  import opened Tables
  import opened Construction

  /**
   * `NamesUnbound`: names must be derived but `func` is not a list, so
   * `feature_names` is never bound. `NoFunctionName`: a callable in the list
   * has no `__name__` (an AttributeError).
   */
  datatype NamingError = NamesUnbound | NoFunctionName

  function DigitChar(d: nat): (c: char)
    requires d < 10
    ensures '0' <= c <= '9'
  {
    (('0' as int) + d) as char
  }

  /** Decimal text of a natural number, without leading zeros. */
  function NatText(n: nat): (s: string)
    ensures |s| >= 1
    ensures forall k :: 0 <= k < |s| ==> '0' <= s[k] <= '9'
  {
    if n < 10 then [DigitChar(n)] else NatText(n / 10) + [DigitChar(n % 10)]
  }

  /** Python's `str` of an integer. */
  function IntText(i: int): (s: string)
    ensures |s| >= 1 && '_' !in s
  {
    if i < 0 then "-" + NatText(-i) else NatText(i)
  }

  /** Reads a string of decimal digits. */
  function ParseNat(s: string): nat
    requires forall k :: 0 <= k < |s| ==> '0' <= s[k] <= '9'
  {
    if |s| == 0 then 0
    else ParseNat(s[..|s| - 1]) * 10 + ((s[|s| - 1] as int) - ('0' as int))
  }

  /** Reads Python's text of an integer. */
  function ParseInt(s: string): int
    requires |s| >= 1
    requires forall k :: (if s[0] == '-' then 1 else 0) <= k < |s| ==> '0' <= s[k] <= '9'
  {
    if s[0] == '-' then -(ParseNat(s[1..]) as int) else ParseNat(s) as int
  }

  lemma {:induction false} NatTextRoundTrip(n: nat)
    ensures ParseNat(NatText(n)) == n
    decreases n
  {
    if n >= 10 {
      var s := NatText(n);
      assert s[..|s| - 1] == NatText(n / 10);
      NatTextRoundTrip(n / 10);
    }
  }

  /** The text an integer label contributes to a derived name reads back as that integer. */
  lemma IntTextRoundTrip(i: int)
    ensures ParseInt(IntText(i)) == i
  {
    if i < 0 {
      assert IntText(i)[1..] == NatText(-i);
      NatTextRoundTrip(-i);
    } else {
      NatTextRoundTrip(i);
    }
  }

  /** `f"{var}"` for a variable label. */
  function LabelText(v: Ident): string
  {
    match v
    case IntId(i) => IntText(i)
    case StrId(s) => s
  }

  function LabelTexts(vars: seq<Ident>): (r: seq<string>)
    ensures |r| == |vars|
    ensures forall k :: 0 <= k < |vars| ==> r[k] == LabelText(vars[k])
  {
    seq(|vars|, k requires 0 <= k < |vars| => LabelText(vars[k]))
  }

  /** Python's `sep.join(parts)`. */
  function Join(parts: seq<string>, sep: char): string
  {
    if |parts| == 0 then ""
    else if |parts| == 1 then parts[0]
    else parts[0] + [sep] + Join(parts[1..], sep)
  }

  /** Python's `s.split(sep)`. */
  function Split(s: string, sep: char): (r: seq<string>)
    ensures |r| >= 1
  {
    if |s| == 0 then [""]
    else
      var rest := Split(s[1..], sep);
      if s[0] == sep then [""] + rest else [[s[0]] + rest[0]] + rest[1..]
  }

  lemma {:induction false} SplitNoSeparator(p: string, sep: char)
    requires sep !in p
    ensures Split(p, sep) == [p]
    decreases |p|
  {
    if |p| > 0 {
      SplitNoSeparator(p[1..], sep);
      assert [p[0]] + p[1..] == p;
    }
  }

  lemma {:induction false} SplitAfterPart(p: string, t: string, sep: char)
    requires sep !in p
    ensures Split(p + [sep] + t, sep) == [p] + Split(t, sep)
    decreases |p|
  {
    var s := p + [sep] + t;
    if |p| == 0 {
      assert s[0] == sep && s[1..] == t;
    } else {
      assert s[0] == p[0] && s[1..] == p[1..] + [sep] + t;
      SplitAfterPart(p[1..], t, sep);
      assert [p[0]] + p[1..] == p;
    }
  }

  /** Splitting a joined list recovers the parts when no part contains the separator. */
  lemma {:induction false} SplitJoin(parts: seq<string>, sep: char)
    requires |parts| >= 1
    requires forall k :: 0 <= k < |parts| ==> sep !in parts[k]
    ensures Split(Join(parts, sep), sep) == parts
    decreases |parts|
  {
    if |parts| == 1 {
      SplitNoSeparator(parts[0], sep);
    } else {
      SplitJoin(parts[1..], sep);
      SplitAfterPart(parts[0], Join(parts[1..], sep), sep);
      assert [parts[0]] + parts[1..] == parts;
    }
  }

  /** A string names itself; a callable has a name only when it has a `__name__`. */
  predicate HasName(f: FuncSpec)
  {
    f.Named? || f.fname.Some?
  }

  /** Every function of the list has a name. */
  predicate AllNamed(fs: seq<FuncSpec>)
  {
    forall i :: 0 <= i < |fs| ==> HasName(fs[i])
  }

  /** A string function is named by itself, a callable by its `__name__`. */
  function Identity(f: FuncSpec): string
    requires HasName(f)
  {
    match f
    case Named(s) => s
    case Callable(fname, _, _) => fname.value
  }

  /** The derived name of one function: its identity, `_`, and the joined variable texts. */
  function DerivedName(f: FuncSpec, vars: seq<Ident>): string
    requires HasName(f)
  {
    Identity(f) + "_" + Join(LabelTexts(vars), '_')
  }

  /**
   * The names of the new columns. The fitted `variables_` is the
   * constructor's `variables` here.
   */
  function FeatureNames(c: Config): (r: Result<seq<string>, NamingError>)
    ensures c.newNames.Some? ==> r == Success(c.newNames.value)
    ensures c.newNames.None? ==> (r.Success? <==> c.func.FuncList? && AllNamed(c.func.items))
    ensures c.newNames.None? && !c.func.FuncList? ==> r == Failure(NamesUnbound)
    ensures c.newNames.None? && c.func.FuncList? && !AllNamed(c.func.items) ==> r == Failure(NoFunctionName)
    ensures r.Success? && c.newNames.None? ==>
      && |r.value| == |c.func.items|
      && forall i :: 0 <= i < |r.value| ==> r.value[i] == DerivedName(c.func.items[i], c.variables)
  {
    if c.newNames.Some? then Success(c.newNames.value)
    else if c.func.FuncList? then
      var fs := c.func.items;
      if AllNamed(fs) then Success(seq(|fs|, i requires 0 <= i < |fs| => DerivedName(fs[i], c.variables)))
      else Failure(NoFunctionName)
    else Failure(NamesUnbound)
  }

  /**
   * A valid configuration with a list of functions has one name per
   * function, unless the names are derived and a function has no name.
   */
  lemma OneNamePerFunction(c: Config)
    requires ConfigValid(c) && c.func.FuncList?
    ensures FeatureNames(c).Success? <==> c.newNames.Some? || AllNamed(c.func.items)
    ensures FeatureNames(c).Success? ==> |FeatureNames(c).value| == |c.func.items|
  {
  }

  /**
   * A derived name starts with the function's identity and `_`, and the rest
   * splits on `_` back into the variable texts when none of them contains `_`.
   */
  lemma DerivedNameRecoversVariables(c: Config, i: nat)
    requires c.newNames.None? && c.func.FuncList? && AllNamed(c.func.items) && i < |c.func.items|
    requires |c.variables| >= 1
    requires forall k :: 0 <= k < |c.variables| ==> '_' !in LabelText(c.variables[k])
    ensures var name := FeatureNames(c).value[i];
      var prefix := Identity(c.func.items[i]) + "_";
      && prefix <= name
      && Split(name[|prefix|..], '_') == LabelTexts(c.variables)
  {
    var texts := LabelTexts(c.variables);
    var prefix := Identity(c.func.items[i]) + "_";
    var name := FeatureNames(c).value[i];
    assert name == prefix + Join(texts, '_');
    assert name[|prefix|..] == Join(texts, '_');
    SplitJoin(texts, '_');
  }

  /** Two derived names coincide exactly when the two functions have the same identity. */
  lemma DerivedNamesCollide(c: Config, i: nat, j: nat)
    requires c.newNames.None? && c.func.FuncList? && AllNamed(c.func.items)
    requires i < |c.func.items| && j < |c.func.items|
    ensures FeatureNames(c).value[i] == FeatureNames(c).value[j]
        <==> Identity(c.func.items[i]) == Identity(c.func.items[j])
  {
    var a, b := Identity(c.func.items[i]), Identity(c.func.items[j]);
    var tail := "_" + Join(LabelTexts(c.variables), '_');
    assert FeatureNames(c).value[i] == a + tail;
    assert FeatureNames(c).value[j] == b + tail;
    if a + tail == b + tail {
      assert |a| == |b|;
      assert a == (a + tail)[..|a|];
    }
  }
}
