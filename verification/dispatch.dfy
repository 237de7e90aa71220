/**
 * How one aggregation function is turned into one new column: exact match
 * against the eight built-in names and their `np.` aliases, otherwise a call
 * through numpy or pandas chosen by the `scope_target` of the object the
 * callable is bound to.
 */
module Dispatch {
  import opened Wrappers
  import opened Tables
  import opened Reductions
  import opened Construction

  /**
   * The numeric and dataframe facilities the model does not interpret: the
   * square root behind the standard deviation, and pandas' row-wise
   * aggregation by a function name it knows.
   */
  datatype Facilities = Facilities(sqrt: real -> real, aggByName: (string, Row) -> Value)

  /** How a function is evaluated, in the order `np_transform` tests the cases. */
  datatype Strategy = BuiltinReduce(b: Builtin) | NumpyScope | PandasScope | NoScope

  function BareName(b: Builtin): string
  {
    match b
    case Sum => "sum"
    case Mean => "mean"
    case Min => "min"
    case Max => "max"
    case Prod => "prod"
    case Median => "median"
    case Std => "std"
    case Var => "var"
  }

  /** The built-in a name selects, by exact comparison with the bare and the `np.` spelling. */
  function BuiltinOf(name: string): Option<Builtin>
  {
    if name in ["sum", "np.sum"] then Some(Sum)
    else if name in ["mean", "np.mean"] then Some(Mean)
    else if name in ["min", "np.min"] then Some(Min)
    else if name in ["max", "np.max"] then Some(Max)
    else if name in ["prod", "np.prod"] then Some(Prod)
    else if name in ["median", "np.median"] then Some(Median)
    else if name in ["std", "np.std"] then Some(Std)
    else if name in ["var", "np.var"] then Some(Var)
    else None
  }

  /** A name selects a built-in exactly when it is that built-in's bare name or its `np.` alias. */
  lemma BuiltinNames(name: string, b: Builtin)
    ensures BuiltinOf(name) == Some(b) <==> name == BareName(b) || name == "np." + BareName(b)
  {
    match b
    case Sum => assert "np." + "sum" == "np.sum";
    case Mean => assert "np." + "mean" == "np.mean";
    case Min => assert "np." + "min" == "np.min";
    case Max => assert "np." + "max" == "np.max";
    case Prod => assert "np." + "prod" == "np.prod";
    case Median => assert "np." + "median" == "np.median";
    case Std => assert "np." + "std" == "np.std";
    case Var => assert "np." + "var" == "np.var";
  }

  /** The `np.` alias of a built-in, or its bare name. */
  function AliasOrBare(b: Builtin, alias: bool): string
  {
    if alias then "np." + BareName(b) else BareName(b)
  }

  /** The bare name and the `np.` alias select the same reduction. */
  lemma AliasesAgree(b: Builtin)
    ensures BuiltinOf("np." + BareName(b)) == BuiltinOf(BareName(b)) == Some(b)
  {
    BuiltinNames(BareName(b), b);
    BuiltinNames("np." + BareName(b), b);
  }

  /**
   * `f.__self__.scope_target`, or "pandas" when that lookup raises: for a
   * string, a plain function, or an owner without the attribute.
   */
  function ScopeOf(f: FuncSpec): (scope: string)
    ensures f.Named? ==> scope == "pandas"
    ensures scope != "pandas" ==> f.Callable? && f.owner.Some? && f.owner.value.scopeTarget == Some(scope)
    ensures f.Callable? && f.owner.Some? && f.owner.value.scopeTarget.Some? ==> scope == f.owner.value.scopeTarget.value
  {
    match f
    case Named(_) => "pandas"
    case Callable(_, owner, _) =>
      if owner.Some? && owner.value.scopeTarget.Some? then owner.value.scopeTarget.value else "pandas"
  }

  /**
   * The branch of `np_transform` a function takes: a built-in name first,
   * then the numpy scope, then the pandas scope; any other scope takes no
   * branch and writes no column.
   */
  function Resolve(f: FuncSpec): (st: Strategy)
    ensures st.BuiltinReduce? <==> f.Named? && BuiltinOf(f.name).Some?
    ensures st.BuiltinReduce? ==> f.name == BareName(st.b) || f.name == "np." + BareName(st.b)
    ensures st == NumpyScope <==> !st.BuiltinReduce? && ScopeOf(f) == "numpy"
    ensures st == PandasScope <==> !st.BuiltinReduce? && ScopeOf(f) == "pandas"
    ensures st.NoScope? ==> f.Callable?
  {
    if f.Named? && BuiltinOf(f.name).Some? then
      BuiltinNames(f.name, BuiltinOf(f.name).value);
      BuiltinReduce(BuiltinOf(f.name).value)
    else if ScopeOf(f) == "numpy" then NumpyScope
    else if ScopeOf(f) == "pandas" then PandasScope
    else NoScope
  }

  /**
   * A function name always takes a branch: its built-in reduction, or, for
   * any other name, pandas' aggregation by that name.
   */
  lemma NamedFunctionsResolve(name: string)
    ensures !Resolve(Named(name)).NoScope?
    ensures Resolve(Named(name)) == PandasScope <==> BuiltinOf(name).None?
  {
  }

  /** What a function computes on one row, when it computes anything. */
  function RowResult(f: FuncSpec, row: Row, env: Facilities): Value
    requires !Resolve(f).NoScope?
  {
    match Resolve(f)
    case BuiltinReduce(b) => Reduce(b, row, env.sqrt)
    case _ =>
      match f
      case Named(s) => env.aggByName(s, row)
      case Callable(_, _, apply) => apply(row)
  }

  /** The new column one function contributes, or none when its scope is neither numpy nor pandas. */
  function ColumnFor(f: FuncSpec, rows: seq<Row>, env: Facilities): (r: Option<seq<Value>>)
    ensures r.None? <==> Resolve(f).NoScope?
    ensures r.Some? ==> |r.value| == |rows|
    ensures r.Some? ==> forall i :: 0 <= i < |rows| ==> r.value[i] == RowResult(f, rows[i], env)
  {
    if Resolve(f).NoScope? then None
    else Some(seq(|rows|, i requires 0 <= i < |rows| => RowResult(f, rows[i], env)))
  }

  /** A built-in name, bare or aliased, always produces its reduction's column. */
  lemma BuiltinColumn(b: Builtin, alias: bool, rows: seq<Row>, env: Facilities)
    ensures ColumnFor(Named(AliasOrBare(b, alias)), rows, env).Some?
    ensures forall i :: 0 <= i < |rows| ==>
      ColumnFor(Named(AliasOrBare(b, alias)), rows, env).value[i] == Reduce(b, rows[i], env.sqrt)
  {
    AliasesAgree(b);
  }

  /** A callable whose bound object carries no `scope_target` goes through pandas. */
  lemma DefaultScopeIsPandas(fname: Option<string>, owner: Option<Owner>, apply: Row -> Value)
    requires owner.None? || owner.value.scopeTarget.None?
    ensures Resolve(Callable(fname, owner, apply)) == PandasScope
  {
  }

  /** A callable produces a column exactly when its scope is "numpy" or "pandas", computing `apply` per row. */
  lemma CallableColumn(f: FuncSpec, rows: seq<Row>, env: Facilities)
    requires f.Callable?
    ensures ColumnFor(f, rows, env).Some? <==> ScopeOf(f) == "numpy" || ScopeOf(f) == "pandas"
    ensures ColumnFor(f, rows, env).Some? ==>
      forall i :: 0 <= i < |rows| ==> ColumnFor(f, rows, env).value[i] == f.apply(rows[i])
  {
  }
}
