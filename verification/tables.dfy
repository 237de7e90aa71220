/**
 * The tabular data the transformer works on, reduced to what it needs:
 * column labels (strings or integers), column values with missing entries,
 * and row selection over a list of labels.
 */
module Tables {
  import opened Wrappers

  /** One cell: `None` is a missing value (NaN), `Some(x)` a present number. */
  type Value = Option<real>

  /** The cells of one row restricted to the selected input columns, in label order. */
  type Row = seq<Value>

  /** A column label: the constructor accepts integers and strings. */
  datatype Ident = IntId(i: int) | StrId(s: string)

  datatype Column = Column(name: Ident, values: seq<Value>)

  /** A table: a row count and an ordered sequence of columns. */
  datatype Table = Table(nrows: nat, cols: seq<Column>)

  predicate Distinct<T(==)>(s: seq<T>)
  {
    forall i, j :: 0 <= i < j < |s| ==> s[i] != s[j]
  }

  /** Every column holds exactly one value per row. */
  predicate WellFormed(t: Table)
  {
    forall j :: 0 <= j < |t.cols| ==> |t.cols[j].values| == t.nrows
  }

  function Labels(cols: seq<Column>): (r: seq<Ident>)
    ensures |r| == |cols|
    ensures forall j :: 0 <= j < |cols| ==> r[j] == cols[j].name
  {
    seq(|cols|, j requires 0 <= j < |cols| => cols[j].name)
  }

  /** Position of the first occurrence of `l`. */
  function IndexOf(labels: seq<Ident>, l: Ident): (k: nat)
    requires l in labels
    ensures k < |labels| && labels[k] == l
    ensures forall j :: 0 <= j < k ==> labels[j] != l
  {
    if labels[0] == l then 0 else 1 + IndexOf(labels[1..], l)
  }

  /** Every label of `vars` names a column of `t`. */
  predicate HasAll(t: Table, vars: seq<Ident>)
  {
    forall k :: 0 <= k < |vars| ==> vars[k] in Labels(t.cols)
  }

  /** The first column of `t` named `l`. */
  function Lookup(t: Table, l: Ident): (c: Column)
    requires l in Labels(t.cols)
    ensures c in t.cols && c.name == l
  {
    t.cols[IndexOf(Labels(t.cols), l)]
  }

  /** Row `i` of the sub-table made of the columns `vars`, in the order of `vars`. */
  function SelectRow(t: Table, vars: seq<Ident>, i: nat): (r: Row)
    requires WellFormed(t) && HasAll(t, vars) && i < t.nrows
    ensures |r| == |vars|
    ensures forall k :: 0 <= k < |vars| ==> r[k] == Lookup(t, vars[k]).values[i]
  {
    seq(|vars|, k requires 0 <= k < |vars| => Lookup(t, vars[k]).values[i])
  }

  /** All rows of the sub-table made of the columns `vars`. */
  function SelectRows(t: Table, vars: seq<Ident>): (rows: seq<Row>)
    requires WellFormed(t) && HasAll(t, vars)
    ensures |rows| == t.nrows
    ensures forall i :: 0 <= i < t.nrows ==> rows[i] == SelectRow(t, vars, i)
  {
    seq(t.nrows, i requires 0 <= i < t.nrows => SelectRow(t, vars, i))
  }
}
