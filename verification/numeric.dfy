/** The numeric statistics pandas computes over the present values of an
    int or float column: sum, mean, median, minimum and maximum. Values are
    exact reals; floating-point rounding is not part of this model. */
module Numeric {
  import opened Wrappers
  import opened Cells

  /** The number a cell stands for in arithmetic (`True` is 1). */
  function NumOf(c: Cell): Option<real> {
    match c
    case B(b) => Some(if b then 1.0 else 0.0)
    case I(i) => Some(i as real)
    case R(r) => Some(r)
    case _ => None
  }

  /** The cell takes part in arithmetic. */
  predicate HasNum(c: Cell) { NumOf(c).Some? }

  /** The numeric values of the present cells, in column order: one value
      for every numeric cell, so repeated values keep their multiplicity. */
  function Numbers(col: seq<Cell>): (r: seq<real>)
    ensures |r| == CountIf(col, HasNum)
    ensures |r| <= |col|
    ensures forall x :: x in r ==> exists c :: c in col && NumOf(c) == Some(x)
  {
    if |col| == 0 then []
    else
      var init := col[..|col| - 1];
      var last := col[|col| - 1];
      assert col == init + [last];
      match NumOf(last)
      case Some(x) => Numbers(init) + [x]
      case None => Numbers(init)
  }

  /** `Numbers` keeps column order: the values of a concatenation are the
      values of each part, one after the other. */
  lemma {:induction false} NumbersAppend(a: seq<Cell>, b: seq<Cell>)
    ensures Numbers(a + b) == Numbers(a) + Numbers(b)
    decreases |b|
  {
    if |b| > 0 {
      var binit := b[..|b| - 1];
      assert a + b == (a + binit) + [b[|b| - 1]];
      assert (a + b)[..|a + b| - 1] == a + binit;
      NumbersAppend(a, binit);
    } else {
      assert a + b == a;
    }
  }

  /** A single cell contributes its number, or nothing. */
  lemma NumbersSingle(c: Cell)
    ensures Numbers([c]) == (if HasNum(c) then [NumOf(c).value] else [])
  {
    assert [c][..0] == [];
  }

  function Sum(xs: seq<real>): real {
    if |xs| == 0 then 0.0 else Sum(xs[..|xs| - 1]) + xs[|xs| - 1]
  }

  /** The smallest value. */
  function MinOf(xs: seq<real>): (m: real)
    requires |xs| > 0
    ensures m in xs
    ensures forall x :: x in xs ==> m <= x
  {
    if |xs| == 1 then xs[0]
    else
      var init := xs[..|xs| - 1];
      assert xs == init + [xs[|xs| - 1]];
      var m := MinOf(init);
      if xs[|xs| - 1] < m then xs[|xs| - 1] else m
  }

  /** The largest value. */
  function MaxOf(xs: seq<real>): (m: real)
    requires |xs| > 0
    ensures m in xs
    ensures forall x :: x in xs ==> x <= m
  {
    if |xs| == 1 then xs[0]
    else
      var init := xs[..|xs| - 1];
      assert xs == init + [xs[|xs| - 1]];
      var m := MaxOf(init);
      if xs[|xs| - 1] > m then xs[|xs| - 1] else m
  }

  /** A sum of `n` values lies between `n` times any lower bound and `n`
      times any upper bound. */
  lemma {:induction false} SumBounds(xs: seq<real>, lo: real, hi: real)
    requires forall x :: x in xs ==> lo <= x <= hi
    ensures |xs| as real * lo <= Sum(xs) <= |xs| as real * hi
  {
    if |xs| > 0 {
      var init := xs[..|xs| - 1];
      assert forall x :: x in init ==> x in xs;
      SumBounds(init, lo, hi);
      assert xs[|xs| - 1] in xs;
      assert |xs| as real == |init| as real + 1.0;
      assert Sum(xs) == Sum(init) + xs[|xs| - 1];
    }
  }

  /** Dividing a total that lies between `n * lo` and `n * hi` by `n`. */
  lemma DivideBounds(total: real, n: real, lo: real, hi: real)
    requires n > 0.0 && n * lo <= total <= n * hi
    ensures lo <= total / n <= hi
  {
    var q := total / n;
    assert q * n == total;
  }

  /** `mean()` over the values; `None` (NaN) when there are none. */
  function Mean(xs: seq<real>): (r: Option<real>)
    ensures r.Some? <==> |xs| > 0
    ensures r.Some? ==> r.value * |xs| as real == Sum(xs)
    ensures r.Some? ==> MinOf(xs) <= r.value <= MaxOf(xs)
  {
    if |xs| == 0 then None
    else
      var n := |xs| as real;
      SumBounds(xs, MinOf(xs), MaxOf(xs));
      DivideBounds(Sum(xs), n, MinOf(xs), MaxOf(xs));
      Some(Sum(xs) / n)
  }

  // ---------------------------------------------------------------------
  // Sorting and the median
  // ---------------------------------------------------------------------

  predicate Sorted(xs: seq<real>) {
    forall i, j :: 0 <= i < j < |xs| ==> xs[i] <= xs[j]
  }

  function InsertSorted(x: real, ys: seq<real>): (r: seq<real>)
    requires Sorted(ys)
    ensures Sorted(r)
    ensures multiset(r) == multiset(ys) + multiset{x}
    ensures |r| == |ys| + 1
    ensures r[0] == x || (|ys| > 0 && r[0] == ys[0])
  {
    if |ys| == 0 then [x]
    else if x <= ys[0] then [x] + ys
    else
      assert ys == [ys[0]] + ys[1..];
      [ys[0]] + InsertSorted(x, ys[1..])
  }

  /** The values in ascending order. */
  function SortReals(xs: seq<real>): (r: seq<real>)
    ensures Sorted(r)
    ensures multiset(r) == multiset(xs)
    ensures |r| == |xs|
  {
    if |xs| == 0 then []
    else
      assert xs == xs[..|xs| - 1] + [xs[|xs| - 1]];
      InsertSorted(xs[|xs| - 1], SortReals(xs[..|xs| - 1]))
  }

  /** Every element of the sorted copy is an original value. */
  lemma SortedMembers(xs: seq<real>, k: nat)
    requires k < |xs|
    ensures SortReals(xs)[k] in xs
  {
    var ys := SortReals(xs);
    assert ys[k] in multiset(ys);
  }

  /** The middle of an ascending sequence: its centre element, or the mean
      of its two centre elements when the length is even. */
  function Middle(ys: seq<real>): real
    requires |ys| > 0
  {
    var n := |ys|;
    if n % 2 == 1 then ys[n / 2] else (ys[n / 2 - 1] + ys[n / 2]) / 2.0
  }

  /** `median()`: the middle of the sorted values; `None` (NaN) when there
      are none. */
  function Median(xs: seq<real>): (r: Option<real>)
    ensures r.Some? <==> |xs| > 0
    ensures r.Some? ==> MinOf(xs) <= r.value <= MaxOf(xs)
    ensures r.Some? && |xs| % 2 == 1 ==> r.value == SortReals(xs)[|xs| / 2] && r.value in xs
    ensures r.Some? && |xs| % 2 == 0 ==>
      r.value == (SortReals(xs)[|xs| / 2 - 1] + SortReals(xs)[|xs| / 2]) / 2.0
  {
    if |xs| == 0 then None
    else
      var n := |xs|;
      SortedMembers(xs, n / 2);
      SortedMembers(xs, if n % 2 == 0 then n / 2 - 1 else n / 2);
      Some(Middle(SortReals(xs)))
  }

  /** The middle of an ascending sequence splits it in halves: at least half
      of the values lie at or below it and at least half at or above it. */
  lemma MiddleSplits(ys: seq<real>)
    requires |ys| > 0 && Sorted(ys)
    ensures forall i :: 0 <= i < (|ys| + 1) / 2 ==> ys[i] <= Middle(ys)
    ensures forall i :: |ys| / 2 <= i < |ys| ==> Middle(ys) <= ys[i]
  {
    var n := |ys|;
    if n % 2 == 0 {
      assert ys[n / 2 - 1] <= Middle(ys) <= ys[n / 2];
    }
  }

  /** The median splits the column's values in halves. */
  lemma MedianSplits(xs: seq<real>)
    requires |xs| > 0
    ensures forall i :: 0 <= i < (|xs| + 1) / 2 ==> SortReals(xs)[i] <= Median(xs).value
    ensures forall i :: |xs| / 2 <= i < |xs| ==> Median(xs).value <= SortReals(xs)[i]
  {
    MiddleSplits(SortReals(xs));
  }
}
