/**
 * The transformer's constructor: normalisation of `func` and validation of
 * `variables`, `func` and `new_variables_names`, in the order the
 * constructor performs them.
 */
module Construction {
  import opened Wrappers
  import opened Tables

  /** A Python value as far as the constructor inspects it. */
  datatype PyValue = PyInt(i: int) | PyStr(s: string) | PyOther

  /** A constructor argument that should be a list: either it is not a list, or it is one. */
  datatype ListArg = NotAList | AList(items: seq<PyValue>)

  /** The object a bound method belongs to, with its optional `scope_target` attribute. */
  datatype Owner = Owner(scopeTarget: Option<string>)

  /**
   * One aggregation function: a function name, or a callable with its
   * `__name__` (none for an object without one, such as a
   * `functools.partial`), the object it is bound to (none for a plain
   * function), and what it computes on one row (the model does not look
   * inside it).
   */
  datatype FuncSpec =
    | Named(name: string)
    | Callable(fname: Option<string>, owner: Option<Owner>, apply: Row -> Value)

  /** A function object, as opposed to a function name. */
  type CallableSpec = f: FuncSpec | f.Callable? witness Callable(None, None, (_: Row) => None)

  /** The `func` argument: a string, a list, a dict, or any other object (a lone callable). */
  datatype FuncArg =
    | FuncStr(s: string)
    | FuncList(items: seq<FuncSpec>)
    | FuncDict
    | FuncObj(f: CallableSpec)

  datatype MissingPolicy = Raise | Ignore

  /** The attributes a successfully constructed transformer holds. */
  datatype Config = Config(
    variables: seq<Ident>,
    func: FuncArg,
    newNames: Option<seq<string>>,
    missing: MissingPolicy,
    dropOriginal: bool)

  /** ValueError for `variables` or the names, NotImplementedError for a dict. */
  datatype ConstructError = VariablesNotValid | DictNotSupported | NamesNotValid | NamesCountMismatch

  predicate IsIdent(v: PyValue)
  {
    v.PyInt? || v.PyStr?
  }

  function ToIdent(v: PyValue): Ident
    requires IsIdent(v)
  {
    if v.PyInt? then IntId(v.i) else StrId(v.s)
  }

  function FromIdent(id: Ident): PyValue
  {
    match id
    case IntId(i) => PyInt(i)
    case StrId(s) => PyStr(s)
  }

  /** A list of at least two distinct integers or strings. */
  predicate VariablesValid(arg: ListArg)
  {
    && arg.AList?
    && (forall k :: 0 <= k < |arg.items| ==> IsIdent(arg.items[k]))
    && |arg.items| >= 2
    && Distinct(arg.items)
  }

  /** Absent, or a list of distinct strings. */
  predicate NamesValid(names: Option<ListArg>)
  {
    names.Some? ==>
      && names.value.AList?
      && (forall k :: 0 <= k < |names.value.items| ==> names.value.items[k].PyStr?)
      && Distinct(names.value.items)
  }

  /** The name count is compared with the function count only when `func` is a list. */
  predicate CountMatches(names: Option<ListArg>, func: FuncArg)
  {
    names.Some? && names.value.AList? && func.FuncList? ==> |names.value.items| == |func.items|
  }

  /** The invariant every constructed transformer satisfies. */
  predicate ConfigValid(c: Config)
  {
    && |c.variables| >= 2
    && Distinct(c.variables)
    && !c.func.FuncDict?
    && !c.func.FuncStr?
    && (c.newNames.Some? ==>
          && Distinct(c.newNames.value)
          && (c.func.FuncList? ==> |c.newNames.value| == |c.func.items|))
  }

  /** `func` as the constructor stores it: a string becomes a one-element list, anything else is kept. */
  function Normalize(func: FuncArg): FuncArg
  {
    match func
    case FuncStr(s) => FuncList([Named(s)])
    case _ => func
  }

  /** `func` as the documentation describes it: a string or a lone function becomes a one-element list. */
  function NormalizeIntended(func: FuncArg): FuncArg
  {
    match func
    case FuncStr(s) => FuncList([Named(s)])
    case FuncObj(f) => FuncList([f])
    case _ => func
  }

  function Idents(items: seq<PyValue>): (r: seq<Ident>)
    requires forall k :: 0 <= k < |items| ==> IsIdent(items[k])
    ensures |r| == |items|
    ensures forall k :: 0 <= k < |items| ==> r[k] == ToIdent(items[k])
  {
    seq(|items|, k requires 0 <= k < |items| => ToIdent(items[k]))
  }

  function Strings(items: seq<PyValue>): (r: seq<string>)
    requires forall k :: 0 <= k < |items| ==> items[k].PyStr?
    ensures |r| == |items|
    ensures forall k :: 0 <= k < |items| ==> r[k] == items[k].s
  {
    seq(|items|, k requires 0 <= k < |items| => items[k].s)
  }

  /** The checks of the constructor, run on an already normalised `func`. */
  function Validate(
    variables: ListArg, func: FuncArg, names: Option<ListArg>,
    missing: MissingPolicy, drop: bool): Result<Config, ConstructError>
  {
    if !VariablesValid(variables) then Failure(VariablesNotValid)
    else if func.FuncDict? then Failure(DictNotSupported)
    else if !NamesValid(names) then Failure(NamesNotValid)
    else if !CountMatches(names, func) then Failure(NamesCountMismatch)
    else
      var newNames := if names.Some? then Some(Strings(names.value.items)) else None;
      Success(Config(Idents(variables.items), func, newNames, missing, drop))
  }

  lemma IdentsDistinct(items: seq<PyValue>)
    requires forall k :: 0 <= k < |items| ==> IsIdent(items[k])
    requires Distinct(items)
    ensures Distinct(Idents(items))
  {
  }

  lemma StringsDistinct(items: seq<PyValue>)
    requires forall k :: 0 <= k < |items| ==> items[k].PyStr?
    requires Distinct(items)
    ensures Distinct(Strings(items))
  {
  }

  /**
   * `MathFeatures(variables, func, new_variables_names, missing_values, drop_original)`
   * as the constructor is written: a lone callable is kept as it is.
   */
  function Construct(
    variables: ListArg, func: FuncArg, names: Option<ListArg>,
    missing: MissingPolicy, drop: bool): (r: Result<Config, ConstructError>)
    ensures r.Success? <==>
      VariablesValid(variables) && !func.FuncDict? && NamesValid(names) && CountMatches(names, Normalize(func))
    ensures !VariablesValid(variables) ==> r == Failure(VariablesNotValid)
    ensures VariablesValid(variables) && func.FuncDict? ==> r == Failure(DictNotSupported)
    ensures r.Success? ==> ConfigValid(r.value)
    ensures r.Success? ==> r.value.variables == Idents(variables.items)
    ensures r.Success? && func.FuncStr? ==> r.value.func == FuncList([Named(func.s)])
    ensures r.Success? && (func.FuncList? || func.FuncObj?) ==> r.value.func == func
    ensures VariablesValid(variables) && !func.FuncDict? && !NamesValid(names) ==> r == Failure(NamesNotValid)
    ensures VariablesValid(variables) && !func.FuncDict? && NamesValid(names) && !CountMatches(names, Normalize(func)) ==>
      r == Failure(NamesCountMismatch)
    ensures r.Success? && names.Some? ==> r.value.newNames == Some(Strings(names.value.items))
    ensures r.Success? && names.None? ==> r.value.newNames.None?
    ensures r.Success? ==> r.value.missing == missing && r.value.dropOriginal == drop
  {
    var r := Validate(variables, Normalize(func), names, missing, drop);
    assert r.Success? ==> ConfigValid(r.value) by {
      if r.Success? {
        IdentsDistinct(variables.items);
        if names.Some? {
          StringsDistinct(names.value.items);
        }
      }
    }
    r
  }

  /** The constructor with the lone function wrapped into a list, as documented. */
  function ConstructIntended(
    variables: ListArg, func: FuncArg, names: Option<ListArg>,
    missing: MissingPolicy, drop: bool): (r: Result<Config, ConstructError>)
    ensures r.Success? <==>
      VariablesValid(variables) && !func.FuncDict? && NamesValid(names) && CountMatches(names, NormalizeIntended(func))
    ensures r.Success? ==> ConfigValid(r.value) && r.value.func.FuncList?
    ensures r.Success? && func.FuncObj? ==> r.value.func == FuncList([func.f])
    ensures r.Success? ==> r.value.missing == missing && r.value.dropOriginal == drop
    ensures r == Construct(variables, NormalizeIntended(func), names, missing, drop)
    ensures !func.FuncObj? ==> r == Construct(variables, func, names, missing, drop)
  {
    var r := Validate(variables, NormalizeIntended(func), names, missing, drop);
    assert r.Success? ==> ConfigValid(r.value) by {
      if r.Success? {
        IdentsDistinct(variables.items);
        if names.Some? {
          StringsDistinct(names.value.items);
        }
      }
    }
    r
  }

  function VariablesArg(ids: seq<Ident>): (arg: ListArg)
    ensures arg.AList? && |arg.items| == |ids|
    ensures forall k :: 0 <= k < |ids| ==> arg.items[k] == FromIdent(ids[k])
  {
    AList(seq(|ids|, k requires 0 <= k < |ids| => FromIdent(ids[k])))
  }

  function NamesArg(names: Option<seq<string>>): (arg: Option<ListArg>)
    ensures names.None? <==> arg.None?
    ensures names.Some? ==> arg.value.AList? && |arg.value.items| == |names.value|
    ensures names.Some? ==> forall k :: 0 <= k < |names.value| ==> arg.value.items[k] == PyStr(names.value[k])
  {
    match names
    case None => None
    case Some(ns) => Some(AList(seq(|ns|, k requires 0 <= k < |ns| => PyStr(ns[k]))))
  }

  /**
   * Every valid configuration is what the constructor builds from its own
   * attributes: the checks accept exactly the states they promise.
   */
  lemma ConstructRoundTrip(c: Config)
    requires ConfigValid(c)
    ensures Construct(VariablesArg(c.variables), c.func, NamesArg(c.newNames), c.missing, c.dropOriginal) == Success(c)
  {
    var vars := VariablesArg(c.variables);
    var names := NamesArg(c.newNames);
    forall i, j | 0 <= i < j < |vars.items|
      ensures vars.items[i] != vars.items[j]
    {
      assert c.variables[i] != c.variables[j];
    }
    assert Idents(vars.items) == c.variables;
    if c.newNames.Some? {
      var ns := c.newNames.value;
      forall i, j | 0 <= i < j < |names.value.items|
        ensures names.value.items[i] != names.value.items[j]
      {
        assert ns[i] != ns[j];
      }
      assert Strings(names.value.items) == ns;
    }
  }
}
