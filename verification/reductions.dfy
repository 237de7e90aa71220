/**
 * The NaN-skipping row reductions behind the eight built-in function names
 * (numpy's nansum, nanmean, nanmin, nanmax, nanprod, nanmedian, and nanstd /
 * nanvar with one degree of freedom removed). Each one reduces the present
 * entries of a row and ignores the missing ones.
 */
module Reductions {
  import opened Wrappers
  import opened Tables

  /** The eight reductions the transformer knows by name. */
  datatype Builtin = Sum | Mean | Min | Max | Prod | Median | Std | Var

  /** The present entries of a row, in row order. */
  function Present(row: Row): (r: seq<real>)
    ensures |r| <= |row|
    ensures forall x :: x in r <==> Some(x) in row
    decreases |row|
  {
    if |row| == 0 then []
    else
      assert row == [row[0]] + row[1..];
      (match row[0] case Some(x) => [x] case None => []) + Present(row[1..])
  }

  /** A row with no missing entry. */
  function Lift(xs: seq<real>): (row: Row)
    ensures |row| == |xs|
    ensures forall k :: 0 <= k < |xs| ==> row[k] == Some(xs[k])
  {
    seq(|xs|, k requires 0 <= k < |xs| => Some(xs[k]))
  }

  function SumOf(xs: seq<real>): real
  {
    if |xs| == 0 then 0.0 else xs[0] + SumOf(xs[1..])
  }

  function ProductOf(xs: seq<real>): real
  {
    if |xs| == 0 then 1.0 else xs[0] * ProductOf(xs[1..])
  }

  function MinOf(xs: seq<real>): (m: real)
    requires |xs| > 0
    ensures m in xs
    ensures forall k :: 0 <= k < |xs| ==> m <= xs[k]
  {
    if |xs| == 1 then xs[0]
    else
      var rest := MinOf(xs[1..]);
      if xs[0] <= rest then xs[0] else rest
  }

  function MaxOf(xs: seq<real>): (m: real)
    requires |xs| > 0
    ensures m in xs
    ensures forall k :: 0 <= k < |xs| ==> xs[k] <= m
  {
    if |xs| == 1 then xs[0]
    else
      var rest := MaxOf(xs[1..]);
      if rest <= xs[0] then xs[0] else rest
  }

  function MeanOf(xs: seq<real>): real
    requires |xs| > 0
  {
    SumOf(xs) / (|xs| as real)
  }

  predicate Sorted(s: seq<real>)
  {
    forall i, j :: 0 <= i < j < |s| ==> s[i] <= s[j]
  }

  /** Inserts `x` into a sorted sequence at its place. */
  function Insert(x: real, s: seq<real>): (r: seq<real>)
    requires Sorted(s)
    ensures Sorted(r)
    ensures multiset(r) == multiset(s) + multiset{x}
    ensures forall k :: 0 <= k < |r| ==> r[k] == x || r[k] in s
  {
    if |s| == 0 then [x]
    else if x <= s[0] then [x] + s
    else
      var t := Insert(x, s[1..]);
      HeadBelowRest(x, s, t);
      ConsSorted(s[0], t);
      assert s == [s[0]] + s[1..];
      [s[0]] + t
  }

  /** What is inserted into the tail of a sorted sequence stays above its head. */
  lemma HeadBelowRest(x: real, s: seq<real>, t: seq<real>)
    requires Sorted(s) && |s| > 0 && s[0] < x
    requires forall k :: 0 <= k < |t| ==> t[k] == x || t[k] in s[1..]
    ensures forall k :: 0 <= k < |t| ==> s[0] <= t[k]
  {
    forall k | 0 <= k < |t| ensures s[0] <= t[k] {
      if t[k] != x {
        var m :| 0 <= m < |s[1..]| && s[1..][m] == t[k];
        assert s[m + 1] == t[k];
      }
    }
  }

  lemma ConsSorted(y: real, t: seq<real>)
    requires Sorted(t) && forall k :: 0 <= k < |t| ==> y <= t[k]
    ensures Sorted([y] + t)
  {
    var r := [y] + t;
    forall i, j | 0 <= i < j < |r| ensures r[i] <= r[j] {
      assert r[j] == t[j - 1];
      if i > 0 { assert r[i] == t[i - 1]; }
    }
  }

  /** Ascending order of `xs` (insertion sort). */
  function SortOf(xs: seq<real>): (r: seq<real>)
    ensures Sorted(r)
    ensures multiset(r) == multiset(xs)
  {
    if |xs| == 0 then []
    else
      assert xs == [xs[0]] + xs[1..];
      Insert(xs[0], SortOf(xs[1..]))
  }

  /** The middle element of the sorted values, or the mean of the two middle ones. */
  function MedianOf(xs: seq<real>): real
    requires |xs| > 0
  {
    var s := SortOf(xs);
    assert |s| == |multiset(s)| == |multiset(xs)| == |xs|;
    var n := |s|;
    if n % 2 == 1 then s[n / 2] else (s[n / 2 - 1] + s[n / 2]) / 2.0
  }

  /** Sum of squared deviations from `m`. */
  function SquaredDeviations(xs: seq<real>, m: real): real
  {
    if |xs| == 0 then 0.0 else (xs[0] - m) * (xs[0] - m) + SquaredDeviations(xs[1..], m)
  }

  /** Sample variance: squared deviations over (count - 1). */
  function VarianceOf(xs: seq<real>): real
    requires |xs| >= 2
  {
    SquaredDeviations(xs, MeanOf(xs)) / ((|xs| - 1) as real)
  }

  /**
   * The value one built-in reduction gives for one row. `sqrt` is the square
   * root of the numeric library, which the model does not interpret. `None`
   * is a NaN result.
   */
  function Reduce(b: Builtin, row: Row, sqrt: real -> real): (r: Value)
    ensures (b == Sum || b == Prod) ==> r.Some?
    ensures (b == Mean || b == Min || b == Max || b == Median) ==> (r.None? <==> |Present(row)| == 0)
    ensures (b == Std || b == Var) ==> (r.None? <==> |Present(row)| < 2)
  {
    var p := Present(row);
    match b
    case Sum => Some(SumOf(p))
    case Prod => Some(ProductOf(p))
    case Mean => if |p| == 0 then None else Some(MeanOf(p))
    case Min => if |p| == 0 then None else Some(MinOf(p))
    case Max => if |p| == 0 then None else Some(MaxOf(p))
    case Median => if |p| == 0 then None else Some(MedianOf(p))
    case Var => if |p| < 2 then None else Some(VarianceOf(p))
    case Std => if |p| < 2 then None else Some(sqrt(VarianceOf(p)))
  }

  /** The same reduction over a list of numbers with nothing missing. */
  function Classical(b: Builtin, xs: seq<real>, sqrt: real -> real): Value
  {
    match b
    case Sum => Some(SumOf(xs))
    case Prod => Some(ProductOf(xs))
    case Mean => if |xs| == 0 then None else Some(MeanOf(xs))
    case Min => if |xs| == 0 then None else Some(MinOf(xs))
    case Max => if |xs| == 0 then None else Some(MaxOf(xs))
    case Median => if |xs| == 0 then None else Some(MedianOf(xs))
    case Var => if |xs| < 2 then None else Some(VarianceOf(xs))
    case Std => if |xs| < 2 then None else Some(sqrt(VarianceOf(xs)))
  }

  // ---------------------------------------------------------------------
  // Properties
  // ---------------------------------------------------------------------

  lemma {:induction false} PresentAppend(a: Row, b: Row)
    ensures Present(a + b) == Present(a) + Present(b)
    decreases |a|
  {
    if |a| == 0 {
      assert a + b == b;
    } else {
      assert (a + b)[1..] == a[1..] + b;
      PresentAppend(a[1..], b);
    }
  }

  lemma {:induction false} PresentLift(xs: seq<real>)
    ensures Present(Lift(xs)) == xs
    decreases |xs|
  {
    if |xs| > 0 {
      assert Lift(xs)[1..] == Lift(xs[1..]);
      PresentLift(xs[1..]);
    }
  }

  /** On a row with nothing missing, every reduction is the classical one. */
  lemma NoMissingIsClassical(b: Builtin, xs: seq<real>, sqrt: real -> real)
    ensures Reduce(b, Lift(xs), sqrt) == Classical(b, xs, sqrt)
  {
    PresentLift(xs);
  }

  lemma {:induction false} PresentSkipsGap(before: Row, after: Row)
    ensures Present(before + [None] + after) == Present(before + after)
    decreases |before|
  {
    var gapped, joined := before + [None] + after, before + after;
    if |before| == 0 {
      assert gapped == [None] + after && gapped[1..] == after == joined;
    } else {
      assert gapped[0] == before[0] == joined[0];
      assert gapped[1..] == before[1..] + [None] + after;
      assert joined[1..] == before[1..] + after;
      PresentSkipsGap(before[1..], after);
    }
  }

  /** Rows with the same present entries reduce to the same value. */
  lemma SamePresentSameResult(b: Builtin, r1: Row, r2: Row, sqrt: real -> real)
    requires Present(r1) == Present(r2)
    ensures Reduce(b, r1, sqrt) == Reduce(b, r2, sqrt)
  {
  }

  /** A missing entry anywhere in a row does not change any reduction. */
  lemma MissingEntryIgnored(b: Builtin, before: Row, after: Row, sqrt: real -> real)
    ensures Reduce(b, before + [None] + after, sqrt) == Reduce(b, before + after, sqrt)
  {
    PresentSkipsGap(before, after);
    SamePresentSameResult(b, before + [None] + after, before + after, sqrt);
  }

  /** numpy's masked sum, written over the row itself: a missing entry adds 0. */
  function MaskedSum(row: Row): real
  {
    if |row| == 0 then 0.0 else (if row[0].Some? then row[0].value else 0.0) + MaskedSum(row[1..])
  }

  /** numpy's masked product, written over the row itself: a missing entry leaves the product as it is. */
  function MaskedProduct(row: Row): real
  {
    if |row| == 0 then 1.0
    else if row[0].Some? then row[0].value * MaskedProduct(row[1..])
    else MaskedProduct(row[1..])
  }

  /** The number of entries of a row that are present. */
  function PresentCount(row: Row): nat
  {
    if |row| == 0 then 0 else (if row[0].Some? then 1 else 0) + PresentCount(row[1..])
  }

  /** The present entries of a non-empty row: its first entry if present, then the rest's. */
  lemma PresentStep(row: Row)
    requires |row| > 0
    ensures row[0].Some? ==> Present(row) == [row[0].value] + Present(row[1..])
    ensures row[0].None? ==> Present(row) == Present(row[1..])
  {
  }

  /** Counting the present entries directly agrees with the length of `Present`. */
  lemma {:induction false} PresentCountIsLength(row: Row)
    ensures |Present(row)| == PresentCount(row)
    decreases |row|
  {
    if |row| > 0 {
      PresentStep(row);
      PresentCountIsLength(row[1..]);
    }
  }

  /** Summing the present entries is the masked sum: a missing entry adds 0. */
  lemma {:induction false} MaskedSumIsPresentSum(row: Row)
    ensures SumOf(Present(row)) == MaskedSum(row)
    decreases |row|
  {
    if |row| > 0 {
      PresentStep(row);
      MaskedSumIsPresentSum(row[1..]);
      if row[0].Some? {
        assert ([row[0].value] + Present(row[1..]))[1..] == Present(row[1..]);
      }
    }
  }

  /** The product of a sequence is its head times the product of its tail. */
  lemma ProductOfCons(x: real, xs: seq<real>)
    ensures ProductOf([x] + xs) == x * ProductOf(xs)
  {
    assert ([x] + xs)[1..] == xs;
  }

  /** Multiplying the present entries is the masked product: a missing entry multiplies by 1. */
  lemma {:induction false} MaskedProductIsPresentProduct(row: Row)
    ensures ProductOf(Present(row)) == MaskedProduct(row)
    decreases |row|
  {
    if |row| > 0 {
      PresentStep(row);
      MaskedProductIsPresentProduct(row[1..]);
      if row[0].Some? {
        ProductOfCons(row[0].value, Present(row[1..]));
      }
    }
  }

  /**
   * Sum, product and mean agree with the masked folds over the row, and
   * every reduction's missing-value condition is a condition on the count
   * of present entries.
   */
  lemma ReduceAgreesWithMaskedFolds(row: Row, sqrt: real -> real)
    ensures Reduce(Sum, row, sqrt) == Some(MaskedSum(row))
    ensures Reduce(Prod, row, sqrt) == Some(MaskedProduct(row))
    ensures Reduce(Mean, row, sqrt)
      == if PresentCount(row) == 0 then None else Some(MaskedSum(row) / (PresentCount(row) as real))
    ensures forall b :: (b == Min || b == Max || b == Median) ==> (Reduce(b, row, sqrt).None? <==> PresentCount(row) == 0)
    ensures forall b :: (b == Std || b == Var) ==> (Reduce(b, row, sqrt).None? <==> PresentCount(row) < 2)
  {
    PresentCountIsLength(row);
    MaskedSumIsPresentSum(row);
    MaskedProductIsPresentProduct(row);
  }

  lemma {:induction false} SumAppend(a: seq<real>, b: seq<real>)
    ensures SumOf(a + b) == SumOf(a) + SumOf(b)
    decreases |a|
  {
    if |a| > 0 {
      assert (a + b)[1..] == a[1..] + b;
      SumAppend(a[1..], b);
    } else {
      assert a + b == b;
    }
  }

  /** Summing a row is additive over any split of the row. */
  lemma NanSumSplits(a: Row, b: Row, sqrt: real -> real)
    ensures Reduce(Sum, a + b, sqrt).value == Reduce(Sum, a, sqrt).value + Reduce(Sum, b, sqrt).value
  {
    PresentAppend(a, b);
    SumAppend(Present(a), Present(b));
  }

  lemma {:induction false} SumBounds(xs: seq<real>, lo: real, hi: real)
    requires forall k :: 0 <= k < |xs| ==> lo <= xs[k] <= hi
    ensures (|xs| as real) * lo <= SumOf(xs) <= (|xs| as real) * hi
    decreases |xs|
  {
    if |xs| > 0 {
      SumBounds(xs[1..], lo, hi);
    }
  }

  lemma DivisionBounds(total: real, n: real, lo: real, hi: real)
    requires n > 0.0 && n * lo <= total <= n * hi
    ensures lo <= total / n <= hi
  {
  }

  lemma MeanWithin(xs: seq<real>, lo: real, hi: real)
    requires |xs| > 0
    requires forall k :: 0 <= k < |xs| ==> lo <= xs[k] <= hi
    ensures lo <= MeanOf(xs) <= hi
  {
    SumBounds(xs, lo, hi);
    DivisionBounds(SumOf(xs), |xs| as real, lo, hi);
  }

  lemma MeanOfBounds(xs: seq<real>)
    requires |xs| > 0
    ensures MinOf(xs) <= MeanOf(xs) <= MaxOf(xs)
  {
    MeanWithin(xs, MinOf(xs), MaxOf(xs));
  }

  /** The mean lies between the minimum and the maximum of the present values. */
  lemma MeanBetweenMinAndMax(row: Row, sqrt: real -> real)
    requires |Present(row)| > 0
    ensures Reduce(Min, row, sqrt).value <= Reduce(Mean, row, sqrt).value <= Reduce(Max, row, sqrt).value
  {
    MeanOfBounds(Present(row));
  }

  lemma SortKeepsBounds(xs: seq<real>, lo: real, hi: real)
    requires forall k :: 0 <= k < |xs| ==> lo <= xs[k] <= hi
    ensures forall k :: 0 <= k < |SortOf(xs)| ==> lo <= SortOf(xs)[k] <= hi
  {
    var s := SortOf(xs);
    forall k | 0 <= k < |s|
      ensures lo <= s[k] <= hi
    {
      assert s[k] in multiset(s);
      assert s[k] in multiset(xs);
    }
  }

  lemma MedianWithin(xs: seq<real>, lo: real, hi: real)
    requires |xs| > 0
    requires forall k :: 0 <= k < |xs| ==> lo <= xs[k] <= hi
    ensures lo <= MedianOf(xs) <= hi
  {
    SortKeepsBounds(xs, lo, hi);
  }

  lemma MedianOfBounds(xs: seq<real>)
    requires |xs| > 0
    ensures MinOf(xs) <= MedianOf(xs) <= MaxOf(xs)
  {
    MedianWithin(xs, MinOf(xs), MaxOf(xs));
  }

  /** The median lies between the minimum and the maximum of the present values. */
  lemma MedianBetweenMinAndMax(row: Row, sqrt: real -> real)
    requires |Present(row)| > 0
    ensures Reduce(Min, row, sqrt).value <= Reduce(Median, row, sqrt).value <= Reduce(Max, row, sqrt).value
  {
    MedianOfBounds(Present(row));
  }

  lemma {:induction false} SquaredDeviationsNonNegative(xs: seq<real>, m: real)
    ensures SquaredDeviations(xs, m) >= 0.0
    decreases |xs|
  {
    if |xs| > 0 {
      var d := xs[0] - m;
      assert d * d >= 0.0 by {
        if d < 0.0 {
          assert d * d == (-d) * (-d);
        }
      }
      SquaredDeviationsNonNegative(xs[1..], m);
    }
  }

  /** Variance, and with it the standard deviation's argument, is never negative. */
  lemma VarianceNonNegative(row: Row, sqrt: real -> real)
    requires |Present(row)| >= 2
    ensures Reduce(Var, row, sqrt).value >= 0.0
  {
    SquaredDeviationsNonNegative(Present(row), MeanOf(Present(row)));
  }
}
