/**
 * `MathFeatures.transform`: one new column per function, collected into a
 * block, concatenated to the right of the input table, and the input
 * variables dropped when `drop_original` is set.
 */
module MathFeatures {
  import opened Wrappers
  import opened Tables
  import opened Reductions
  import opened Construction
  import opened Naming
  import opened Dispatch

  /**
   * UnboundLocalError when names must be derived for a non-list `func`;
   * TypeError when a non-list `func` with explicit names is enumerated;
   * AttributeError when names must be derived for a callable without
   * `__name__`.
   */
  datatype TransformError = UnboundFeatureNames | FuncNotIterable | FunctionWithoutName

  /** The functions can be enumerated and every new column has a name. */
  predicate Succeeds(c: Config)
  {
    c.func.FuncList? && FeatureNames(c).Success?
  }

  /** `block[name] = values`: overwrite the column with that name in place, or append a new one. */
  function Assign(block: seq<Column>, name: string, values: seq<Value>): (r: seq<Column>)
    requires Distinct(Labels(block))
    ensures StrId(name) in Labels(block) ==> |r| == |block| && Labels(r) == Labels(block)
    ensures StrId(name) !in Labels(block) ==> r == block + [Column(StrId(name), values)]
    ensures forall j :: 0 <= j < |r| ==> (if r[j].name == StrId(name) then r[j].values == values else r[j] in block)
    ensures forall j :: 0 <= j < |block| && block[j].name != StrId(name) ==> r[j] == block[j]
  {
    if StrId(name) in Labels(block) then
      var k := IndexOf(Labels(block), StrId(name));
      block[k := Column(StrId(name), values)]
    else block + [Column(StrId(name), values)]
  }

  /** The names of the functions that produce a column, in function order. */
  function ProducedNames(names: seq<string>, funcs: seq<FuncSpec>): seq<string>
    requires |names| >= |funcs|
    decreases |funcs|
  {
    if |funcs| == 0 then []
    else
      var k := |funcs| - 1;
      ProducedNames(names, funcs[..k]) + (if Resolve(funcs[k]).NoScope? then [] else [names[k]])
  }

  /** Function `i` writes the final value of its column: no later producing function has its name. */
  predicate LastWriter(names: seq<string>, funcs: seq<FuncSpec>, i: nat)
    requires |names| >= |funcs|
  {
    && i < |funcs|
    && !Resolve(funcs[i]).NoScope?
    && forall j :: i < j < |funcs| && names[j] == names[i] ==> Resolve(funcs[j]).NoScope?
  }

  /**
   * The block of new columns `np_transform` builds, one function after the
   * other: every column has one value per row, no name occurs twice, and
   * every name belongs to a function that produces a column.
   */
  function Block(rows: seq<Row>, names: seq<string>, funcs: seq<FuncSpec>, env: Facilities): (r: seq<Column>)
    requires |names| >= |funcs|
    ensures forall j :: 0 <= j < |r| ==> |r[j].values| == |rows|
    ensures Distinct(Labels(r))
    ensures forall j :: 0 <= j < |r| ==> r[j].name.StrId? && r[j].name.s in ProducedNames(names, funcs)
    decreases |funcs|
  {
    if |funcs| == 0 then []
    else
      var k := |funcs| - 1;
      var prev := Block(rows, names, funcs[..k], env);
      match ColumnFor(funcs[k], rows, env)
      case None => prev
      case Some(v) =>
        var r := Assign(prev, names[k], v);
        assert Distinct(Labels(r)) by {
          if StrId(names[k]) !in Labels(prev) {
            assert Labels(r) == Labels(prev) + [StrId(names[k])];
          }
        }
        r
  }

  /** Every function that produces a column has its name in the block. */
  lemma BlockCoversProducers(rows: seq<Row>, names: seq<string>, funcs: seq<FuncSpec>, env: Facilities)
    requires |names| >= |funcs|
    ensures forall i :: 0 <= i < |funcs| && !Resolve(funcs[i]).NoScope? ==>
      StrId(names[i]) in Labels(Block(rows, names, funcs, env))
  {
    forall i | 0 <= i < |funcs| && !Resolve(funcs[i]).NoScope?
      ensures StrId(names[i]) in Labels(Block(rows, names, funcs, env))
    {
      CoversAt(rows, names, funcs, env, i);
    }
  }

  /** Function `i`, which produces a column, has its name in the block. */
  lemma {:induction false} CoversAt(rows: seq<Row>, names: seq<string>, funcs: seq<FuncSpec>, env: Facilities, i: nat)
    requires |names| >= |funcs| && i < |funcs| && !Resolve(funcs[i]).NoScope?
    ensures StrId(names[i]) in Labels(Block(rows, names, funcs, env))
    decreases |funcs|
  {
    var k := |funcs| - 1;
    var prev := Block(rows, names, funcs[..k], env);
    var col := ColumnFor(funcs[k], rows, env);
    if i < k {
      assert funcs[..k][i] == funcs[i];
      CoversAt(rows, names, funcs[..k], env, i);
      if col.Some? {
        AssignKeepsLabels(prev, names[k], col.value, StrId(names[i]));
        assert Block(rows, names, funcs, env) == Assign(prev, names[k], col.value);
      } else {
        assert Block(rows, names, funcs, env) == prev;
      }
    } else {
      assert col.Some?;
      AssignAddsLabel(prev, names[k], col.value);
      assert Block(rows, names, funcs, env) == Assign(prev, names[k], col.value);
    }
  }

  lemma AssignKeepsLabels(block: seq<Column>, name: string, values: seq<Value>, l: Ident)
    requires Distinct(Labels(block)) && l in Labels(block)
    ensures l in Labels(Assign(block, name, values))
  {
    var r := Assign(block, name, values);
    var j := IndexOf(Labels(block), l);
    if l != StrId(name) {
      assert Labels(r)[j] == l;
    } else {
      AssignAddsLabel(block, name, values);
    }
  }

  lemma AssignAddsLabel(block: seq<Column>, name: string, values: seq<Value>)
    requires Distinct(Labels(block))
    ensures StrId(name) in Labels(Assign(block, name, values))
  {
    var r := Assign(block, name, values);
    if StrId(name) in Labels(block) {
      var j := IndexOf(Labels(block), StrId(name));
      assert Labels(r)[j] == StrId(name);
    } else {
      assert Labels(r)[|block|] == StrId(name);
    }
  }

  /** Where two functions share a name, the column holds what the last producing one computed. */
  lemma BlockLastWriterWins(rows: seq<Row>, names: seq<string>, funcs: seq<FuncSpec>, env: Facilities)
    requires |names| >= |funcs|
    ensures forall i: nat, j ::
      (LastWriter(names, funcs, i) && 0 <= j < |Block(rows, names, funcs, env)|
       && Block(rows, names, funcs, env)[j].name == StrId(names[i])) ==>
        Block(rows, names, funcs, env)[j].values == ColumnFor(funcs[i], rows, env).value
  {
    forall i: nat | LastWriter(names, funcs, i)
      ensures forall j :: 0 <= j < |Block(rows, names, funcs, env)| && Block(rows, names, funcs, env)[j].name == StrId(names[i]) ==>
        Block(rows, names, funcs, env)[j].values == ColumnFor(funcs[i], rows, env).value
    {
      LastWriterAt(rows, names, funcs, env, i);
    }
  }

  /** The column named by last writer `i` holds what `i` computed. */
  lemma {:induction false} LastWriterAt(rows: seq<Row>, names: seq<string>, funcs: seq<FuncSpec>, env: Facilities, i: nat)
    requires |names| >= |funcs| && LastWriter(names, funcs, i)
    ensures forall j :: 0 <= j < |Block(rows, names, funcs, env)| && Block(rows, names, funcs, env)[j].name == StrId(names[i]) ==>
      Block(rows, names, funcs, env)[j].values == ColumnFor(funcs[i], rows, env).value
    decreases |funcs|
  {
    var k := |funcs| - 1;
    var prev := Block(rows, names, funcs[..k], env);
    var col := ColumnFor(funcs[k], rows, env);
    if i == k {
      assert col.Some?;
      assert Block(rows, names, funcs, env) == Assign(prev, names[k], col.value);
    } else {
      assert funcs[..k][i] == funcs[i];
      assert LastWriter(names, funcs[..k], i);
      LastWriterAt(rows, names, funcs[..k], env, i);
      var v := ColumnFor(funcs[i], rows, env).value;
      if col.Some? {
        assert names[k] != names[i];
        AssignKeepsOthers(prev, names[k], col.value, StrId(names[i]), v);
        assert Block(rows, names, funcs, env) == Assign(prev, names[k], col.value);
      } else {
        assert Block(rows, names, funcs, env) == prev;
      }
    }
  }

  /** Assigning one name leaves the values under every other name as they were. */
  lemma AssignKeepsOthers(block: seq<Column>, name: string, values: seq<Value>, l: Ident, v: seq<Value>)
    requires Distinct(Labels(block)) && l != StrId(name)
    requires forall j :: 0 <= j < |block| && block[j].name == l ==> block[j].values == v
    ensures forall j :: 0 <= j < |Assign(block, name, values)| && Assign(block, name, values)[j].name == l ==>
      Assign(block, name, values)[j].values == v
  {
    var r := Assign(block, name, values);
    forall j | 0 <= j < |r| && r[j].name == l ensures r[j].values == v {
      var j' :| 0 <= j' < |block| && block[j'] == r[j];
    }
  }

  /** The producing functions' columns, in function order. */
  function ProducedColumns(rows: seq<Row>, names: seq<string>, funcs: seq<FuncSpec>, env: Facilities): seq<Column>
    requires |names| >= |funcs|
    decreases |funcs|
  {
    if |funcs| == 0 then []
    else
      var k := |funcs| - 1;
      var col := ColumnFor(funcs[k], rows, env);
      ProducedColumns(rows, names, funcs[..k], env) + (if col.None? then [] else [Column(StrId(names[k]), col.value)])
  }

  lemma {:induction false} ProducedColumnsNames(rows: seq<Row>, names: seq<string>, funcs: seq<FuncSpec>, env: Facilities)
    requires |names| >= |funcs|
    ensures |ProducedColumns(rows, names, funcs, env)| == |ProducedNames(names, funcs)|
    ensures forall j :: 0 <= j < |ProducedColumns(rows, names, funcs, env)| ==>
      ProducedColumns(rows, names, funcs, env)[j].name == StrId(ProducedNames(names, funcs)[j])
    decreases |funcs|
  {
    if |funcs| > 0 {
      ProducedColumnsNames(rows, names, funcs[..|funcs| - 1], env);
    }
  }

  /**
   * With distinct names, the block holds exactly the producing functions'
   * columns in function order: nothing is overwritten.
   */
  lemma {:induction false} BlockInFunctionOrder(rows: seq<Row>, names: seq<string>, funcs: seq<FuncSpec>, env: Facilities)
    requires |names| >= |funcs|
    requires Distinct(names[..|funcs|])
    ensures Block(rows, names, funcs, env) == ProducedColumns(rows, names, funcs, env)
    decreases |funcs|
  {
    if |funcs| > 0 {
      var k := |funcs| - 1;
      DistinctPrefixStep(names, |funcs|);
      BlockInFunctionOrder(rows, names, funcs[..k], env);
      var prev := Block(rows, names, funcs[..k], env);
      ProducedNamesWithin(names, funcs[..k]);
      assert StrId(names[k]) !in Labels(prev);
    }
  }

  /** Dropping the last of distinct names leaves distinct names, none equal to the dropped one. */
  lemma DistinctPrefixStep(names: seq<string>, n: nat)
    requires 0 < n <= |names| && Distinct(names[..n])
    ensures Distinct(names[..n - 1])
    ensures names[n - 1] !in names[..n - 1]
  {
    var k := n - 1;
    assert names[..k] == names[..n][..k];
    forall j | 0 <= j < k
      ensures names[..k][j] != names[k]
    {
      assert names[..n][j] != names[..n][k];
    }
  }

  /** Every produced name is the name of one of the functions. */
  lemma {:induction false} ProducedNamesWithin(names: seq<string>, funcs: seq<FuncSpec>)
    requires |names| >= |funcs|
    ensures forall n :: n in ProducedNames(names, funcs) ==> n in names[..|funcs|]
    decreases |funcs|
  {
    if |funcs| > 0 {
      var k := |funcs| - 1;
      ProducedNamesWithin(names, funcs[..k]);
      assert names[..k] <= names[..|funcs|];
      assert names[k] == names[..|funcs|][k];
    }
  }

  /** Positions of the columns whose name is not in `vars`, in increasing order. */
  function KeptPositions(cols: seq<Column>, vars: seq<Ident>): (ks: seq<nat>)
    ensures forall k :: 0 <= k < |ks| ==> ks[k] < |cols| && cols[ks[k]].name !in vars
    ensures forall k1, k2 :: 0 <= k1 < k2 < |ks| ==> ks[k1] < ks[k2]
    ensures forall j :: 0 <= j < |cols| && cols[j].name !in vars ==> j in ks
    decreases |cols|
  {
    if |cols| == 0 then []
    else
      var n := |cols| - 1;
      KeptPositions(cols[..n], vars) + (if cols[n].name in vars then [] else [n])
  }

  /** `drop(columns=vars)`: every column whose name is in `vars` goes, the others stay in order. */
  function DropNamed(cols: seq<Column>, vars: seq<Ident>): (r: seq<Column>)
    ensures forall j :: 0 <= j < |r| ==> r[j] in cols && r[j].name !in vars
    decreases |cols|
  {
    if |cols| == 0 then []
    else
      var n := |cols| - 1;
      DropNamed(cols[..n], vars) + (if cols[n].name in vars then [] else [cols[n]])
  }

  /** What `drop` keeps is exactly the columns at the kept positions, in order. */
  lemma {:induction false} DropNamedKeepsOrder(cols: seq<Column>, vars: seq<Ident>)
    ensures |DropNamed(cols, vars)| == |KeptPositions(cols, vars)|
    ensures forall k :: 0 <= k < |DropNamed(cols, vars)| ==>
      DropNamed(cols, vars)[k] == cols[KeptPositions(cols, vars)[k]]
  {
    DropNamedCount(cols, vars);
    forall k | 0 <= k < |DropNamed(cols, vars)|
      ensures DropNamed(cols, vars)[k] == cols[KeptPositions(cols, vars)[k]]
    {
      DropNamedAt(cols, vars, k);
    }
  }

  /** `drop` keeps one column per kept position. */
  lemma {:induction false} DropNamedCount(cols: seq<Column>, vars: seq<Ident>)
    ensures |DropNamed(cols, vars)| == |KeptPositions(cols, vars)|
    decreases |cols|
  {
    if |cols| > 0 {
      DropNamedCount(cols[..|cols| - 1], vars);
    }
  }

  /** The `k`-th column `drop` keeps is the column at the `k`-th kept position. */
  lemma {:induction false} DropNamedAt(cols: seq<Column>, vars: seq<Ident>, k: nat)
    requires k < |DropNamed(cols, vars)|
    ensures |DropNamed(cols, vars)| == |KeptPositions(cols, vars)|
    ensures DropNamed(cols, vars)[k] == cols[KeptPositions(cols, vars)[k]]
    decreases |cols|
  {
    var n := |cols| - 1;
    DropNamedCount(cols, vars);
    DropNamedCount(cols[..n], vars);
    var prev, ks := DropNamed(cols[..n], vars), KeptPositions(cols[..n], vars);
    assert DropNamed(cols, vars) == prev + (if cols[n].name in vars then [] else [cols[n]]);
    assert KeptPositions(cols, vars) == ks + (if cols[n].name in vars then [] else [n]);
    if k < |prev| {
      DropNamedAt(cols[..n], vars, k);
      assert cols[..n][ks[k]] == cols[ks[k]];
    }
  }

  /** Dropping from a concatenation drops from each part. */
  lemma {:induction false} DropNamedAppend(a: seq<Column>, b: seq<Column>, vars: seq<Ident>)
    ensures DropNamed(a + b, vars) == DropNamed(a, vars) + DropNamed(b, vars)
    decreases |b|
  {
    if |b| == 0 {
      assert a + b == a;
    } else {
      var n := |b| - 1;
      assert (a + b)[..|a + b| - 1] == a + b[..n];
      DropNamedAppend(a, b[..n], vars);
    }
  }

  /** No variable column has a missing value. */
  predicate NoMissing(x: Table, vars: seq<Ident>)
    requires WellFormed(x) && HasAll(x, vars)
  {
    forall i, k :: 0 <= i < x.nrows && 0 <= k < |vars| ==> SelectRow(x, vars, i)[k].Some?
  }

  /**
   * What the input check before `transform` guarantees: a constructed
   * transformer, a table with one value per row in every column and no
   * repeated column name, all `variables` present, and no missing value
   * among them when missing values must raise.
   */
  predicate Ready(c: Config, x: Table)
  {
    && ConfigValid(c)
    && WellFormed(x)
    && Distinct(Labels(x.cols))
    && HasAll(x, c.variables)
    && (c.missing == Raise ==> NoMissing(x, c.variables))
  }

  /** The block `np_transform` returns for a list of functions. */
  function NewBlock(c: Config, x: Table, env: Facilities): (r: seq<Column>)
    requires Ready(c, x) && Succeeds(c)
  {
    var names := FeatureNames(c).value;
    Block(SelectRows(x, c.variables), names, c.func.items, env)
  }

  /** `MathFeatures.transform`. */
  function Transform(c: Config, x: Table, env: Facilities): (r: Result<Table, TransformError>)
    requires Ready(c, x)
    ensures r.Failure? <==> c.func.FuncObj? || (c.newNames.None? && !AllNamed(c.func.items))
    ensures r.Failure? && c.func.FuncObj? ==>
      r.error == (if c.newNames.None? then UnboundFeatureNames else FuncNotIterable)
    ensures r.Failure? && c.func.FuncList? ==> r.error == FunctionWithoutName
    ensures r.Success? ==> r.value.nrows == x.nrows && WellFormed(r.value)
    ensures r.Success? ==> Succeeds(c)
    ensures r.Success? && !c.dropOriginal ==>
      && |x.cols| <= |r.value.cols|
      && r.value.cols[..|x.cols|] == x.cols
      && r.value.cols[|x.cols|..] == NewBlock(c, x, env)
    ensures r.Success? && c.dropOriginal ==>
      forall j :: 0 <= j < |r.value.cols| ==> r.value.cols[j].name !in c.variables
  {
    match FeatureNames(c)
    case Failure(e) => Failure(if e == NamesUnbound then UnboundFeatureNames else FunctionWithoutName)
    case Success(names) =>
      if c.func.FuncList? then
        var cols := x.cols + NewBlock(c, x, env);
        Success(Table(x.nrows, if c.dropOriginal then DropNamed(cols, c.variables) else cols))
      else Failure(FuncNotIterable)
  }

  /** The columns of a transform's output, in the case in which it succeeds. */
  function OutputColumns(c: Config, x: Table, env: Facilities): seq<Column>
    requires Ready(c, x) && Succeeds(c)
  {
    Transform(c, x, env).value.cols
  }

  /** When every function produces a column, the produced columns are one per function, in order. */
  lemma {:induction false} AllProduce(rows: seq<Row>, names: seq<string>, funcs: seq<FuncSpec>, env: Facilities)
    requires |names| >= |funcs|
    requires forall i :: 0 <= i < |funcs| ==> !Resolve(funcs[i]).NoScope?
    ensures |ProducedColumns(rows, names, funcs, env)| == |funcs|
    ensures forall i :: 0 <= i < |funcs| ==>
      ProducedColumns(rows, names, funcs, env)[i] == Column(StrId(names[i]), ColumnFor(funcs[i], rows, env).value)
  {
    AllProduceCount(rows, names, funcs, env);
    forall i | 0 <= i < |funcs|
      ensures ProducedColumns(rows, names, funcs, env)[i] == Column(StrId(names[i]), ColumnFor(funcs[i], rows, env).value)
    {
      ProducedColumnAt(rows, names, funcs, env, i);
    }
  }

  /** When every function produces a column, there are as many produced columns as functions. */
  lemma {:induction false} AllProduceCount(rows: seq<Row>, names: seq<string>, funcs: seq<FuncSpec>, env: Facilities)
    requires |names| >= |funcs|
    requires forall i :: 0 <= i < |funcs| ==> !Resolve(funcs[i]).NoScope?
    ensures |ProducedColumns(rows, names, funcs, env)| == |funcs|
    decreases |funcs|
  {
    if |funcs| > 0 {
      var k := |funcs| - 1;
      assert forall i :: 0 <= i < k ==> funcs[..k][i] == funcs[i];
      AllProduceCount(rows, names, funcs[..k], env);
      assert !Resolve(funcs[k]).NoScope?;
    }
  }

  /** When every function produces a column, the `i`-th produced column is function `i`'s. */
  lemma {:induction false} ProducedColumnAt(rows: seq<Row>, names: seq<string>, funcs: seq<FuncSpec>, env: Facilities, i: nat)
    requires |names| >= |funcs| && i < |funcs|
    requires forall i :: 0 <= i < |funcs| ==> !Resolve(funcs[i]).NoScope?
    ensures |ProducedColumns(rows, names, funcs, env)| == |funcs|
    ensures ProducedColumns(rows, names, funcs, env)[i] == Column(StrId(names[i]), ColumnFor(funcs[i], rows, env).value)
    decreases |funcs|
  {
    var k := |funcs| - 1;
    AllProduceCount(rows, names, funcs, env);
    assert forall j :: 0 <= j < k ==> funcs[..k][j] == funcs[j];
    AllProduceCount(rows, names, funcs[..k], env);
    var prev := ProducedColumns(rows, names, funcs[..k], env);
    assert !Resolve(funcs[k]).NoScope?;
    assert ProducedColumns(rows, names, funcs, env) == prev + [Column(StrId(names[k]), ColumnFor(funcs[k], rows, env).value)];
    if i < k {
      ProducedColumnAt(rows, names, funcs[..k], env, i);
      assert funcs[..k][i] == funcs[i];
    }
  }

  /**
   * Without `drop_original`, the output is the input columns in their order
   * followed by one column per function, in function order, each named by
   * its name and holding that function's value for every row, as long as the
   * names are distinct and every function produces a column.
   */
  lemma OutputIsInputThenOneColumnPerFunction(c: Config, x: Table, env: Facilities)
    requires Ready(c, x) && Succeeds(c) && !c.dropOriginal
    requires Distinct(FeatureNames(c).value)
    requires forall i :: 0 <= i < |c.func.items| ==> !Resolve(c.func.items[i]).NoScope?
    ensures |OutputColumns(c, x, env)| == |x.cols| + |c.func.items|
    ensures OutputColumns(c, x, env)[..|x.cols|] == x.cols
    ensures forall i :: 0 <= i < |c.func.items| ==>
      OutputColumns(c, x, env)[|x.cols| + i]
        == Column(StrId(FeatureNames(c).value[i]), ColumnFor(c.func.items[i], SelectRows(x, c.variables), env).value)
  {
    var names, funcs, rows := FeatureNames(c).value, c.func.items, SelectRows(x, c.variables);
    assert names[..|funcs|] == names;
    BlockInFunctionOrder(rows, names, funcs, env);
    AllProduce(rows, names, funcs, env);
    var block := ProducedColumns(rows, names, funcs, env);
    assert NewBlock(c, x, env) == block;
    var out := Transform(c, x, env).value.cols;
    assert out == x.cols + block;
    forall i | 0 <= i < |funcs|
      ensures out[|x.cols| + i] == Column(StrId(names[i]), ColumnFor(funcs[i], rows, env).value)
    {
      assert out[|x.cols| + i] == block[i];
    }
  }

  /** A name is produced iff some function with that name produces a column. */
  lemma {:induction false} ProducedNamesAreProducers(names: seq<string>, funcs: seq<FuncSpec>)
    requires |names| >= |funcs|
    ensures forall n :: n in ProducedNames(names, funcs) <==>
      exists i :: 0 <= i < |funcs| && !Resolve(funcs[i]).NoScope? && names[i] == n
  {
    forall n | n in ProducedNames(names, funcs)
      ensures exists i :: 0 <= i < |funcs| && !Resolve(funcs[i]).NoScope? && names[i] == n
    {
      ProducedNameHasProducer(names, funcs, n);
    }
    forall i | 0 <= i < |funcs| && !Resolve(funcs[i]).NoScope?
      ensures names[i] in ProducedNames(names, funcs)
    {
      ProducerIsNamed(names, funcs, i);
    }
  }

  /** Every produced name comes from a function that produces a column. */
  lemma {:induction false} ProducedNameHasProducer(names: seq<string>, funcs: seq<FuncSpec>, n: string)
    requires |names| >= |funcs| && n in ProducedNames(names, funcs)
    ensures exists i :: 0 <= i < |funcs| && !Resolve(funcs[i]).NoScope? && names[i] == n
    decreases |funcs|
  {
    var k := |funcs| - 1;
    if n in ProducedNames(names, funcs[..k]) {
      ProducedNameHasProducer(names, funcs[..k], n);
      var i :| 0 <= i < k && !Resolve(funcs[..k][i]).NoScope? && names[i] == n;
      assert funcs[..k][i] == funcs[i];
    } else {
      assert !Resolve(funcs[k]).NoScope? && names[k] == n;
    }
  }

  /** A function that produces a column has its name among the produced names. */
  lemma {:induction false} ProducerIsNamed(names: seq<string>, funcs: seq<FuncSpec>, i: nat)
    requires |names| >= |funcs| && i < |funcs| && !Resolve(funcs[i]).NoScope?
    ensures names[i] in ProducedNames(names, funcs)
    decreases |funcs|
  {
    var k := |funcs| - 1;
    if i < k {
      assert funcs[..k][i] == funcs[i];
      ProducerIsNamed(names, funcs[..k], i);
    }
  }

  /**
   * Without `drop_original`, the columns after the input are named exactly
   * by the functions that produce a column, each name once: a function
   * whose scope is neither numpy nor pandas adds nothing, and a repeated
   * name holds what its last producing function computed.
   */
  lemma AppendedColumnsFollowProducers(c: Config, x: Table, env: Facilities)
    requires Ready(c, x) && Succeeds(c) && !c.dropOriginal
    ensures |x.cols| <= |OutputColumns(c, x, env)|
    ensures Distinct(Labels(OutputColumns(c, x, env)[|x.cols|..]))
    ensures forall l :: l in Labels(OutputColumns(c, x, env)[|x.cols|..]) <==>
      exists i :: 0 <= i < |c.func.items| && !Resolve(c.func.items[i]).NoScope? && l == StrId(FeatureNames(c).value[i])
    ensures forall i: nat, j ::
      (LastWriter(FeatureNames(c).value, c.func.items, i) && |x.cols| <= j < |OutputColumns(c, x, env)|
       && OutputColumns(c, x, env)[j].name == StrId(FeatureNames(c).value[i])) ==>
        OutputColumns(c, x, env)[j].values == ColumnFor(c.func.items[i], SelectRows(x, c.variables), env).value
  {
    var names, funcs, rows := FeatureNames(c).value, c.func.items, SelectRows(x, c.variables);
    var out := OutputColumns(c, x, env);
    var block := Block(rows, names, funcs, env);
    assert out[|x.cols|..] == block;
    BlockCoversProducers(rows, names, funcs, env);
    BlockLastWriterWins(rows, names, funcs, env);
    ProducedNamesAreProducers(names, funcs);
    forall l | l in Labels(block)
      ensures exists i :: 0 <= i < |funcs| && !Resolve(funcs[i]).NoScope? && l == StrId(names[i])
    {
      var j :| 0 <= j < |block| && block[j].name == l;
      assert l.s in ProducedNames(names, funcs);
    }
    forall i: nat, j | LastWriter(names, funcs, i) && |x.cols| <= j < |out| && out[j].name == StrId(names[i])
      ensures out[j].values == ColumnFor(funcs[i], rows, env).value
    {
      assert out[j] == block[j - |x.cols|];
    }
  }

  /**
   * With `drop_original`, exactly the columns named in `variables` are
   * removed: the output is the kept input columns, in their order, followed
   * by the kept new columns.
   */
  lemma DropRemovesExactlyVariables(c: Config, x: Table, env: Facilities)
    requires Ready(c, x) && Succeeds(c) && c.dropOriginal
    ensures OutputColumns(c, x, env) == DropNamed(x.cols, c.variables) + DropNamed(NewBlock(c, x, env), c.variables)
    ensures forall j :: 0 <= j < |x.cols| && x.cols[j].name !in c.variables ==> x.cols[j] in OutputColumns(c, x, env)
    ensures forall j :: 0 <= j < |OutputColumns(c, x, env)| ==> OutputColumns(c, x, env)[j].name !in c.variables
  {
    DropNamedAppend(x.cols, NewBlock(c, x, env), c.variables);
    DropNamedKeepsOrder(x.cols, c.variables);
    var kept := DropNamed(x.cols, c.variables);
    var ks := KeptPositions(x.cols, c.variables);
    forall j | 0 <= j < |x.cols| && x.cols[j].name !in c.variables
      ensures x.cols[j] in kept
    {
      var k :| 0 <= k < |ks| && ks[k] == j;
      assert kept[k] == x.cols[j];
    }
  }

  /** As written: a lone callable is stored unwrapped, so every transform with it fails. */
  lemma LoneFunctionAsWritten(
    vars: ListArg, f: CallableSpec, names: Option<ListArg>, missing: MissingPolicy, drop: bool,
    x: Table, env: Facilities)
    requires Construct(vars, FuncObj(f), names, missing, drop).Success?
    requires Ready(Construct(vars, FuncObj(f), names, missing, drop).value, x)
    ensures Transform(Construct(vars, FuncObj(f), names, missing, drop).value, x, env).Failure?
  {
  }

  /** The corrected constructor stores a lone function exactly as a one-element list of it. */
  lemma LoneFunctionIsOneElementList(
    vars: ListArg, f: CallableSpec, names: Option<ListArg>, missing: MissingPolicy, drop: bool)
    ensures ConstructIntended(vars, FuncObj(f), names, missing, drop) == Construct(vars, FuncList([f]), names, missing, drop)
  {
  }

  /** The block a single function writes: its column under `name`, or nothing when it has no branch. */
  function OneFunctionBlock(name: string, f: FuncSpec, rows: seq<Row>, env: Facilities): seq<Column>
  {
    match ColumnFor(f, rows, env)
    case None => []
    case Some(v) => [Column(StrId(name), v)]
  }

  /**
   * With the lone function wrapped, `transform` fails only when a name must
   * be derived and the function has no `__name__`. Otherwise the new block
   * is that one function's column, named by the given name or the derived
   * one, and nothing when its scope is neither numpy nor pandas; the input
   * columns come first, and `drop_original` drops from both parts.
   */
  lemma LoneFunctionIntended(
    vars: ListArg, f: CallableSpec, names: Option<ListArg>, missing: MissingPolicy, drop: bool,
    x: Table, env: Facilities)
    requires ConstructIntended(vars, FuncObj(f), names, missing, drop).Success?
    requires Ready(ConstructIntended(vars, FuncObj(f), names, missing, drop).value, x)
    ensures Transform(ConstructIntended(vars, FuncObj(f), names, missing, drop).value, x, env).Success?
      <==> names.Some? || HasName(f)
    ensures names.None? && !HasName(f) ==>
      Transform(ConstructIntended(vars, FuncObj(f), names, missing, drop).value, x, env) == Failure(FunctionWithoutName)
    ensures names.Some? || HasName(f) ==>
      var c := ConstructIntended(vars, FuncObj(f), names, missing, drop).value;
      var name := if c.newNames.Some? then c.newNames.value[0] else DerivedName(f, c.variables);
      var block := OneFunctionBlock(name, f, SelectRows(x, c.variables), env);
      && Transform(c, x, env).Success?
      && Transform(c, x, env).value.cols
           == if drop then DropNamed(x.cols, c.variables) + DropNamed(block, c.variables) else x.cols + block
  {
    var c := ConstructIntended(vars, FuncObj(f), names, missing, drop).value;
    assert c.func == FuncList([f]);
    if names.Some? || HasName(f) {
      assert c.newNames.Some? || AllNamed(c.func.items);
      OneNamePerFunction(c);
      var rows := SelectRows(x, c.variables);
      var fnames := FeatureNames(c).value;
      var name := if c.newNames.Some? then c.newNames.value[0] else DerivedName(f, c.variables);
      assert fnames[0] == name;
      assert [f][..0] == [];
      assert Block(rows, fnames, [f][..0], env) == [];
      assert NewBlock(c, x, env) == OneFunctionBlock(name, f, rows, env);
      var out := Transform(c, x, env).value.cols;
      if drop {
        DropRemovesExactlyVariables(c, x, env);
      } else {
        assert out == out[..|x.cols|] + out[|x.cols|..];
      }
    } else {
      assert c.func.items[0] == f;
      assert !AllNamed(c.func.items);
    }
  }
}
