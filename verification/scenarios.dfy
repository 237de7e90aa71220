/** The worked examples of the transformer's documentation, checked on the model. */
module Scenarios {
  import opened Wrappers
  import opened Tables
  import opened Reductions
  import opened Construction
  import opened Naming
  import opened Dispatch
  import opened MathFeatures

  /** A three-row table of two columns, `x1` and `x2`. */
  function TwoColumns(a: seq<Value>, b: seq<Value>): Table
  {
    Table(3, [Column(StrId("x1"), a), Column(StrId("x2"), b)])
  }

  /** `pd.DataFrame(dict(x1 = [1,2,3], x2 = [4,5,6]))` */
  function Example(): Table
  {
    TwoColumns([Some(1.0), Some(2.0), Some(3.0)], [Some(4.0), Some(5.0), Some(6.0)])
  }

  /** The example table with x1's middle value missing: x1 = [1, NA, 3]. */
  function ExampleWithGap(): Table
  {
    TwoColumns([Some(1.0), None, Some(3.0)], [Some(4.0), Some(5.0), Some(6.0)])
  }

  function ExampleVariables(): ListArg
  {
    AList([PyStr("x1"), PyStr("x2")])
  }

  /** Values 10, 20 and NA sum to 30: the missing one is ignored. */
  lemma SumIgnoresMissing(sqrt: real -> real)
    ensures Reduce(Sum, [Some(10.0), Some(20.0), None], sqrt) == Some(30.0)
  {
    MissingEntryIgnored(Sum, [Some(10.0), Some(20.0)], [], sqrt);
    assert [Some(10.0), Some(20.0)] + [None] + [] == [Some(10.0), Some(20.0), None];
    assert [Some(10.0), Some(20.0)] + [] == [Some(10.0), Some(20.0)];
    PairSum(10.0, 20.0, 30.0, sqrt);
  }

  /** The transformer `MathFeatures(variables = ["x1","x2"], func = "sum")`. */
  function SumExampleConfig(): Config
  {
    Config([StrId("x1"), StrId("x2")], FuncList([Named("sum")]), None, Raise, false)
  }

  /** `func = "sum"` wraps the string into a list and derives the name `sum_x1_x2`. */
  lemma SumConfig()
    ensures Construct(ExampleVariables(), FuncStr("sum"), None, Raise, false) == Success(SumExampleConfig())
    ensures FeatureNames(SumExampleConfig()) == Success(["sum_x1_x2"])
  {
    var r := Construct(ExampleVariables(), FuncStr("sum"), None, Raise, false);
    assert VariablesValid(ExampleVariables());
    assert r.Success?;
    var c := r.value;
    assert c.variables == [StrId("x1"), StrId("x2")];
    assert LabelTexts(c.variables) == ["x1", "x2"];
    assert Join(["x1", "x2"], '_') == "x1" + "_" + "x2" == "x1_x2";
    assert DerivedName(Named("sum"), c.variables) == "sum" + "_" + "x1_x2" == "sum_x1_x2";
    var names := FeatureNames(c).value;
    assert |names| == 1 && names[0] == "sum_x1_x2";
    assert names == ["sum_x1_x2"];
  }

  /** A row of two present values keeps both. */
  lemma PairPresent(a: real, b: real)
    ensures Present([Some(a), Some(b)]) == [a, b]
  {
    assert Lift([a, b]) == [Some(a), Some(b)];
    PresentLift([a, b]);
  }

  /** A row of two present values sums as the two numbers do. */
  lemma PairSum(a: real, b: real, total: real, sqrt: real -> real)
    requires a + b == total
    ensures Reduce(Sum, [Some(a), Some(b)], sqrt) == Some(total)
  {
    PairPresent(a, b);
    assert [a, b][1..] == [b] && [b][1..] == [];
    assert SumOf([b]) == b;
    assert SumOf([a, b]) == a + b;
  }

  /** A row of two present values multiplies as the two numbers do. */
  lemma PairProduct(a: real, b: real, product: real, sqrt: real -> real)
    requires a * b == product
    ensures Reduce(Prod, [Some(a), Some(b)], sqrt) == Some(product)
  {
    PairPresent(a, b);
    assert [a, b][1..] == [b] && [b][1..] == [];
    assert ProductOf([b]) == b;
    assert ProductOf([a, b]) == a * b;
  }

  /** A row of two present values averages as the two numbers do. */
  lemma PairMean(a: real, b: real, mean: real, sqrt: real -> real)
    requires (a + b) / 2.0 == mean
    ensures Reduce(Mean, [Some(a), Some(b)], sqrt) == Some(mean)
  {
    PairPresent(a, b);
    assert [a, b][1..] == [b] && [b][1..] == [];
    assert SumOf([b]) == b;
    assert SumOf([a, b]) == a + b;
  }

  lemma TwoColumnLookups(a: seq<Value>, b: seq<Value>)
    requires |a| == 3 && |b| == 3
    ensures WellFormed(TwoColumns(a, b))
    ensures Labels(TwoColumns(a, b).cols) == [StrId("x1"), StrId("x2")]
    ensures HasAll(TwoColumns(a, b), [StrId("x1"), StrId("x2")])
    ensures Lookup(TwoColumns(a, b), StrId("x1")) == TwoColumns(a, b).cols[0]
    ensures Lookup(TwoColumns(a, b), StrId("x2")) == TwoColumns(a, b).cols[1]
  {
    assert Labels(TwoColumns(a, b).cols) == [StrId("x1"), StrId("x2")];
  }

  /** Row `i` of x1 and x2 is the pair of their `i`-th values. */
  lemma TwoColumnRow(a: seq<Value>, b: seq<Value>, i: nat)
    requires |a| == 3 && |b| == 3 && i < 3
    ensures HasAll(TwoColumns(a, b), [StrId("x1"), StrId("x2")])
    ensures SelectRow(TwoColumns(a, b), [StrId("x1"), StrId("x2")], i) == [a[i], b[i]]
  {
    TwoColumnLookups(a, b);
  }

  /** The rows of x1 and x2 are the three pairs of their values. */
  lemma TwoColumnRows(a: seq<Value>, b: seq<Value>)
    requires |a| == 3 && |b| == 3
    ensures HasAll(TwoColumns(a, b), [StrId("x1"), StrId("x2")])
    ensures SelectRows(TwoColumns(a, b), [StrId("x1"), StrId("x2")]) == [[a[0], b[0]], [a[1], b[1]], [a[2], b[2]]]
  {
    TwoColumnRow(a, b, 0);
    TwoColumnRow(a, b, 1);
    TwoColumnRow(a, b, 2);
    var rows := SelectRows(TwoColumns(a, b), [StrId("x1"), StrId("x2")]);
    assert rows[0] == [a[0], b[0]];
    assert rows[1] == [a[1], b[1]];
    assert rows[2] == [a[2], b[2]];
    ThreeElements(rows);
  }

  lemma ExampleRows()
    ensures HasAll(Example(), [StrId("x1"), StrId("x2")])
    ensures SelectRows(Example(), [StrId("x1"), StrId("x2")])
      == [[Some(1.0), Some(4.0)], [Some(2.0), Some(5.0)], [Some(3.0), Some(6.0)]]
  {
    TwoColumnRows([Some(1.0), Some(2.0), Some(3.0)], [Some(4.0), Some(5.0), Some(6.0)]);
  }

  /** The rows of x1 and x2 sum to 5, 7 and 9. */
  lemma ExampleSums(sqrt: real -> real)
    ensures Reduce(Sum, [Some(1.0), Some(4.0)], sqrt) == Some(5.0)
    ensures Reduce(Sum, [Some(2.0), Some(5.0)], sqrt) == Some(7.0)
    ensures Reduce(Sum, [Some(3.0), Some(6.0)], sqrt) == Some(9.0)
  {
    PairSum(1.0, 4.0, 5.0, sqrt);
    PairSum(2.0, 5.0, 7.0, sqrt);
    PairSum(3.0, 6.0, 9.0, sqrt);
  }

  /** The rows of x1 and x2 multiply to 4, 10 and 18. */
  lemma ExampleProducts(sqrt: real -> real)
    ensures Reduce(Prod, [Some(1.0), Some(4.0)], sqrt) == Some(4.0)
    ensures Reduce(Prod, [Some(2.0), Some(5.0)], sqrt) == Some(10.0)
    ensures Reduce(Prod, [Some(3.0), Some(6.0)], sqrt) == Some(18.0)
  {
    PairProduct(1.0, 4.0, 4.0, sqrt);
    PairProduct(2.0, 5.0, 10.0, sqrt);
    PairProduct(3.0, 6.0, 18.0, sqrt);
  }

  /** The rows of x1 and x2 average 2.5, 3.5 and 4.5. */
  lemma ExampleMeans(sqrt: real -> real)
    ensures Reduce(Mean, [Some(1.0), Some(4.0)], sqrt) == Some(2.5)
    ensures Reduce(Mean, [Some(2.0), Some(5.0)], sqrt) == Some(3.5)
    ensures Reduce(Mean, [Some(3.0), Some(6.0)], sqrt) == Some(4.5)
  {
    PairMean(1.0, 4.0, 2.5, sqrt);
    PairMean(2.0, 5.0, 3.5, sqrt);
    PairMean(3.0, 6.0, 4.5, sqrt);
  }

  /** The rows (1, 4), (NA, 5) and (3, 6) average 2.5, 5.0 and 4.5. */
  lemma MeanWithMissing(sqrt: real -> real)
    ensures Reduce(Mean, [Some(1.0), Some(4.0)], sqrt) == Some(2.5)
    ensures Reduce(Mean, [None, Some(5.0)], sqrt) == Some(5.0)
    ensures Reduce(Mean, [Some(3.0), Some(6.0)], sqrt) == Some(4.5)
  {
    PairMean(1.0, 4.0, 2.5, sqrt);
    PairMean(3.0, 6.0, 4.5, sqrt);
    GapThenValue(5.0, sqrt);
  }

  /** A missing value followed by `b` averages to `b`. */
  lemma GapThenValue(b: real, sqrt: real -> real)
    ensures Reduce(Mean, [None, Some(b)], sqrt) == Some(b)
  {
    var row: Row := [None, Some(b)];
    assert row[1..] == [Some(b)] && row[1..][1..] == [];
    assert Present(row) == [b];
    assert [b][1..] == [];
    assert SumOf([b]) == b;
  }

  lemma SumExampleReady()
    ensures Ready(SumExampleConfig(), Example())
  {
    var c, x := SumExampleConfig(), Example();
    TwoColumnLookups([Some(1.0), Some(2.0), Some(3.0)], [Some(4.0), Some(5.0), Some(6.0)]);
    ExampleRows();
    var rows := SelectRows(x, c.variables);
    forall i, k | 0 <= i < x.nrows && 0 <= k < |c.variables|
      ensures SelectRow(x, c.variables, i)[k].Some?
    {
      assert SelectRow(x, c.variables, i) == rows[i];
    }
  }

  lemma SumExampleColumn(env: Facilities)
    ensures HasAll(Example(), SumExampleConfig().variables)
    ensures ColumnFor(Named("sum"), SelectRows(Example(), SumExampleConfig().variables), env)
      == Some([Some(5.0), Some(7.0), Some(9.0)])
  {
    ExampleRows();
    ExampleSums(env.sqrt);
    ThreeRowColumn(Sum, [Some(1.0), Some(4.0)], [Some(2.0), Some(5.0)], [Some(3.0), Some(6.0)],
      Some(5.0), Some(7.0), Some(9.0), env);
  }

  /** A built-in over three rows gives the column of its three reductions. */
  lemma ThreeRowColumn(b: Builtin, r0: Row, r1: Row, r2: Row, v0: Value, v1: Value, v2: Value, env: Facilities)
    requires Reduce(b, r0, env.sqrt) == v0 && Reduce(b, r1, env.sqrt) == v1 && Reduce(b, r2, env.sqrt) == v2
    ensures ColumnFor(Named(BareName(b)), [r0, r1, r2], env) == Some([v0, v1, v2])
  {
    var rows := [r0, r1, r2];
    BuiltinColumn(b, false, rows, env);
    var col := ColumnFor(Named(BareName(b)), rows, env).value;
    assert |col| == 3;
    assert col[0] == v0 && col[1] == v1 && col[2] == v2;
    ThreeElements(col);
  }

  lemma ThreeElements<T>(s: seq<T>)
    requires |s| == 3
    ensures s == [s[0], s[1], s[2]]
  {
  }

  /** One function that produces a column appends exactly that column. */
  lemma OneColumnAppended(c: Config, x: Table, env: Facilities, name: string, col: seq<Value>)
    requires Ready(c, x) && c.func.FuncList? && |c.func.items| == 1 && !c.dropOriginal
    requires FeatureNames(c) == Success([name])
    requires ColumnFor(c.func.items[0], SelectRows(x, c.variables), env) == Some(col)
    ensures Transform(c, x, env) == Success(Table(x.nrows, x.cols + [Column(StrId(name), col)]))
  {
    OutputIsInputThenOneColumnPerFunction(c, x, env);
    var t := Transform(c, x, env).value;
    assert t.cols == x.cols + [t.cols[|x.cols|]];
  }

  /** `func = "sum"` on the example table appends `sum_x1_x2 = [5, 7, 9]`. */
  lemma SumTransform(env: Facilities)
    ensures Ready(SumExampleConfig(), Example())
    ensures Transform(SumExampleConfig(), Example(), env)
      == Success(Table(3, Example().cols + [Column(StrId("sum_x1_x2"), [Some(5.0), Some(7.0), Some(9.0)])]))
  {
    SumConfig();
    SumExampleReady();
    SumExampleColumn(env);
    OneColumnAppended(SumExampleConfig(), Example(), env, "sum_x1_x2", [Some(5.0), Some(7.0), Some(9.0)]);
  }

  /** The transformer `MathFeatures(variables = ["x1","x2"], func = "mean", missing_values = "ignore")`. */
  function MeanIgnoreConfig(): Config
  {
    Config([StrId("x1"), StrId("x2")], FuncList([Named("mean")]), None, Ignore, false)
  }

  /** `func = "mean"` with `missing_values = "ignore"` is stored as `["mean"]` and names its column `mean_x1_x2`. */
  lemma MeanIgnoreConfigBuilt()
    ensures Construct(ExampleVariables(), FuncStr("mean"), None, Ignore, false) == Success(MeanIgnoreConfig())
    ensures FeatureNames(MeanIgnoreConfig()) == Success(["mean_x1_x2"])
  {
    var r := Construct(ExampleVariables(), FuncStr("mean"), None, Ignore, false);
    assert VariablesValid(ExampleVariables());
    assert r.Success?;
    var c := r.value;
    assert c.variables == [StrId("x1"), StrId("x2")];
    assert LabelTexts(c.variables) == ["x1", "x2"];
    assert Join(["x1", "x2"], '_') == "x1" + "_" + "x2" == "x1_x2";
    assert DerivedName(Named("mean"), c.variables) == "mean" + "_" + "x1_x2" == "mean_x1_x2";
    var names := FeatureNames(c).value;
    assert |names| == 1 && names[0] == "mean_x1_x2";
    assert names == ["mean_x1_x2"];
  }

  /** With `missing_values = "raise"` the table with a gap is refused before `transform`. */
  lemma GapRefusedUnderRaise()
    ensures !Ready(MeanIgnoreConfig().(missing := Raise), ExampleWithGap())
  {
    var c, x := MeanIgnoreConfig().(missing := Raise), ExampleWithGap();
    TwoColumnLookups([Some(1.0), None, Some(3.0)], [Some(4.0), Some(5.0), Some(6.0)]);
    TwoColumnRow([Some(1.0), None, Some(3.0)], [Some(4.0), Some(5.0), Some(6.0)], 1);
    assert SelectRow(x, c.variables, 1)[0] == None;
  }

  /**
   * `func = "mean"` with `missing_values = "ignore"` on x1 = [1, NA, 3] and
   * x2 = [4, 5, 6] appends `mean_x1_x2 = [2.5, 5.0, 4.5]`.
   */
  lemma MeanWithMissingTransform(env: Facilities)
    ensures Ready(MeanIgnoreConfig(), ExampleWithGap())
    ensures Transform(MeanIgnoreConfig(), ExampleWithGap(), env)
      == Success(Table(3, ExampleWithGap().cols + [Column(StrId("mean_x1_x2"), [Some(2.5), Some(5.0), Some(4.5)])]))
  {
    var c, x := MeanIgnoreConfig(), ExampleWithGap();
    MeanIgnoreConfigBuilt();
    TwoColumnLookups([Some(1.0), None, Some(3.0)], [Some(4.0), Some(5.0), Some(6.0)]);
    TwoColumnRows([Some(1.0), None, Some(3.0)], [Some(4.0), Some(5.0), Some(6.0)]);
    assert Ready(c, x);
    MeanWithMissing(env.sqrt);
    ThreeRowColumn(Mean, [Some(1.0), Some(4.0)], [None, Some(5.0)], [Some(3.0), Some(6.0)],
      Some(2.5), Some(5.0), Some(4.5), env);
    OneColumnAppended(c, x, env, "mean_x1_x2", [Some(2.5), Some(5.0), Some(4.5)]);
  }

  /** Explicit names are used verbatim: `["sum", "mean"]` with `["total", "avg"]`. */
  lemma ExplicitNames()
    ensures var r := Construct(ExampleVariables(), FuncList([Named("sum"), Named("mean")]),
                               Some(AList([PyStr("total"), PyStr("avg")])), Raise, false);
      && r.Success?
      && FeatureNames(r.value) == Success(["total", "avg"])
  {
    var items := [PyStr("total"), PyStr("avg")];
    var r := Construct(ExampleVariables(), FuncList([Named("sum"), Named("mean")]), Some(AList(items)), Raise, false);
    assert VariablesValid(ExampleVariables());
    assert NamesValid(Some(AList(items)));
    assert r.Success?;
    assert Strings(items) == ["total", "avg"];
  }

  /** A single variable is rejected. */
  lemma SingleVariableRejected()
    ensures Construct(AList([PyStr("x1")]), FuncStr("sum"), None, Raise, false) == Failure(VariablesNotValid)
  {
  }

  /** A dict of functions is rejected. */
  lemma DictRejected()
    ensures Construct(ExampleVariables(), FuncDict, None, Raise, false) == Failure(DictNotSupported)
  {
  }

  /** Names count is compared with a list of functions. */
  lemma NamesCountChecked()
    ensures Construct(ExampleVariables(), FuncList([Named("sum"), Named("mean")]),
                      Some(AList([PyStr("total")])), Raise, false) == Failure(NamesCountMismatch)
  {
  }

  /** Integer labels contribute their decimal text: `sum_1_-2`. */
  lemma IntegerLabelsInNames()
    ensures var r := Construct(AList([PyInt(1), PyInt(-2)]), FuncStr("sum"), None, Raise, false);
      && r.Success?
      && FeatureNames(r.value) == Success(["sum_1_-2"])
  {
    var vars := AList([PyInt(1), PyInt(-2)]);
    var r := Construct(vars, FuncStr("sum"), None, Raise, false);
    assert VariablesValid(vars);
    assert r.Success?;
    var c := r.value;
    assert c.variables == [IntId(1), IntId(-2)];
    assert DigitChar(1) == '1' && DigitChar(2) == '2';
    assert IntText(1) == "1";
    assert IntText(-2) == "-" + "2" == "-2";
    assert LabelTexts(c.variables) == ["1", "-2"];
    assert Join(["1", "-2"], '_') == "1" + "_" + "-2" == "1_-2";
    assert DerivedName(Named("sum"), c.variables) == "sum" + "_" + "1_-2" == "sum_1_-2";
    var names := FeatureNames(c).value;
    assert |names| == 1 && names[0] == "sum_1_-2";
    assert names == ["sum_1_-2"];
  }
}
