/** Cells of a table column as the profilers see them when they iterate a
    pandas Series: Python scalars, pandas Timestamps, or a missing marker
    (None/NaN/NaT, everything `dropna()` removes). */
module Cells {

  /** One cell. A timestamp is represented by its year, the only part the
      profilers inspect; `Other` stands for any object of another class. */
  datatype Cell =
    | Missing
    | B(b: bool)
    | I(i: int)
    | R(r: real)
    | S(s: string)
    | Ts(year: int)
    | Other

  /** The exact runtime class of a present cell, `type(v)`. */
  datatype RuntimeType = TyBool | TyInt | TyFloat | TyStr | TyTimestamp | TyOther

  function TypeOf(c: Cell): RuntimeType
    requires c != Missing
  {
    match c
    case B(_) => TyBool
    case I(_) => TyInt
    case R(_) => TyFloat
    case S(_) => TyStr
    case Ts(_) => TyTimestamp
    case Other => TyOther
  }

  /** `isinstance(v, int)`: Python's `bool` is a subclass of `int`. */
  predicate IsInstanceInt(c: Cell) { c.B? || c.I? }

  // ---------------------------------------------------------------------
  // Counting
  // ---------------------------------------------------------------------

  /** How often `v` occurs in `col`. */
  function Count(col: seq<Cell>, v: Cell): nat {
    multiset(col)[v]
  }

  /** `col.dropna()`: the present cells, in column order. */
  function NonMissing(col: seq<Cell>): (r: seq<Cell>)
    ensures forall i :: 0 <= i < |r| ==> r[i] != Missing
    ensures forall c :: c in r <==> c in col && c != Missing
    ensures multiset(r) == multiset(col)[Missing := 0]
    ensures |r| + Count(col, Missing) == |col|
  {
    if |col| == 0 then []
    else
      var init := col[..|col| - 1];
      var last := col[|col| - 1];
      assert col == init + [last];
      var rest := NonMissing(init);
      if last == Missing then rest else rest + [last]
  }

  /** `dropna()` keeps order: the present cells of a concatenation are the
      present cells of each part, one after the other. */
  lemma {:induction false} NonMissingAppend(a: seq<Cell>, b: seq<Cell>)
    ensures NonMissing(a + b) == NonMissing(a) + NonMissing(b)
    decreases |b|
  {
    if |b| > 0 {
      var binit := b[..|b| - 1];
      var last := b[|b| - 1];
      assert a + b == (a + binit) + [last];
      assert (a + b)[..|a + b| - 1] == a + binit;
      assert b[..|b| - 1] == binit;
      NonMissingAppend(a, binit);
    } else {
      assert a + b == a;
    }
  }

  /** A single cell survives `dropna()` exactly when it is present. */
  lemma NonMissingSingle(c: Cell)
    ensures NonMissing([c]) == (if c == Missing then [] else [c])
  {
    assert [c][..0] == [];
  }

  /** `col.isnull().sum()`. */
  function Nulls(col: seq<Cell>): nat { Count(col, Missing) }

  /** `col.notnull().sum()`. */
  function NonNulls(col: seq<Cell>): nat { |NonMissing(col)| }

  /** Every cell is either null or non-null. */
  lemma NullsPlusNonNulls(col: seq<Cell>)
    ensures Nulls(col) + NonNulls(col) == |col|
  {
  }

  /** No cell is non-null exactly when every cell is missing. */
  lemma NonNullsZero(col: seq<Cell>)
    ensures NonNulls(col) == 0 <==> forall i :: 0 <= i < |col| ==> col[i] == Missing
  {
    var present := NonMissing(col);
    assert forall i :: 0 <= i < |col| && col[i] != Missing ==> col[i] in present;
    assert |present| > 0 ==> present[0] in col;
  }

  predicate NoDups<T(==)>(s: seq<T>) {
    forall i, j :: 0 <= i < j < |s| ==> s[i] != s[j]
  }

  /** The distinct values of `s` in order of first occurrence. */
  function Distinct(s: seq<Cell>): (r: seq<Cell>)
    ensures NoDups(r)
    ensures forall x :: x in r <==> x in s
    ensures |r| <= |s|
  {
    if |s| == 0 then []
    else
      var d := Distinct(s[..|s| - 1]);
      var last := s[|s| - 1];
      assert s == s[..|s| - 1] + [last];
      if last in d then d else d + [last]
  }

  /** A duplicate-free sequence has exactly as many elements as its set. */
  lemma {:induction false} NoDupsCardinality<T>(s: seq<T>)
    requires NoDups(s)
    ensures |set x | x in s| == |s|
  {
    if |s| > 0 {
      var init := s[..|s| - 1];
      var last := s[|s| - 1];
      assert s == init + [last];
      NoDupsCardinality(init);
      assert last !in init;
      assert (set x | x in s) == (set x | x in init) + {last};
    }
  }

  /** `col.nunique(dropna=True)`: the number of distinct present values. */
  function Unique(col: seq<Cell>): (r: nat)
    ensures r <= NonNulls(col)
    ensures r == |set c | c in col && c != Missing|
  {
    var d := Distinct(NonMissing(col));
    NoDupsCardinality(d);
    assert (set x | x in d) == (set c | c in col && c != Missing);
    |d|
  }

  /** Multiset occurrence counts of a duplicate-free sequence are at most one. */
  lemma {:induction false} NoDupsMultiset<T>(s: seq<T>)
    requires NoDups(s)
    ensures forall x :: multiset(s)[x] <= 1
  {
    if |s| > 0 {
      var init := s[..|s| - 1];
      assert s == init + [s[|s| - 1]];
      NoDupsMultiset(init);
      assert s[|s| - 1] !in init;
    }
  }

  /** A sequence whose elements all occur at most once has no duplicates. */
  lemma MultisetNoDups<T>(s: seq<T>)
    requires forall x :: multiset(s)[x] <= 1
    ensures NoDups(s)
  {
    forall i, j | 0 <= i < j < |s|
      ensures s[i] != s[j]
    {
      assert s == s[..j] + s[j..];
      assert s[i] in s[..j];
      assert s[j] in s[j..];
      assert multiset(s) == multiset(s[..j]) + multiset(s[j..]);
      assert multiset(s[..j])[s[i]] >= 1 && multiset(s[j..])[s[j]] >= 1;
      assert multiset(s)[s[j]] == multiset(s[..j])[s[j]] + multiset(s[j..])[s[j]];
    }
  }

  // ---------------------------------------------------------------------
  // Counting cells that satisfy a test, as `series.apply(test).sum()`
  // ---------------------------------------------------------------------

  /** The positions of the cells that pass `p`. */
  function Passing(col: seq<Cell>, p: Cell -> bool): set<int> {
    set i | 0 <= i < |col| && p(col[i])
  }

  /** Extending a column by one cell adds its position exactly when it passes. */
  lemma PassingSnoc(init: seq<Cell>, last: Cell, p: Cell -> bool)
    ensures Passing(init + [last], p) == Passing(init, p) + (if p(last) then {|init|} else {})
    ensures |init| !in Passing(init, p)
  {
    var col := init + [last];
    assert forall i :: 0 <= i < |init| ==> col[i] == init[i];
  }

  /** `series.apply(p).sum()`: the number of cells for which `p` holds. */
  function CountIf(col: seq<Cell>, p: Cell -> bool): (r: nat)
    ensures r <= |col|
    ensures r == |Passing(col, p)|
    ensures r == 0 <==> forall i :: 0 <= i < |col| ==> !p(col[i])
  {
    if |col| == 0 then 0
    else
      var init := col[..|col| - 1];
      assert col == init + [col[|col| - 1]];
      assert forall i :: 0 <= i < |init| ==> init[i] == col[i];
      PassingSnoc(init, col[|col| - 1], p);
      CountIf(init, p) + (if p(col[|col| - 1]) then 1 else 0)
  }

  /** When every cell passes exactly one of three tests, the three counts
      add up to the length of the column. */
  lemma {:induction false} CountIfPartition(col: seq<Cell>, p: Cell -> bool, q: Cell -> bool, u: Cell -> bool)
    requires forall i :: 0 <= i < |col| ==>
      (p(col[i]) && !q(col[i]) && !u(col[i])) || (!p(col[i]) && q(col[i]) && !u(col[i])) || (!p(col[i]) && !q(col[i]) && u(col[i]))
    ensures CountIf(col, p) + CountIf(col, q) + CountIf(col, u) == |col|
  {
    if |col| > 0 {
      var init := col[..|col| - 1];
      assert forall i :: 0 <= i < |init| ==> init[i] == col[i];
      CountIfPartition(init, p, q, u);
    }
  }

  predicate IsMissing(c: Cell) { c == Missing }

  /** Testing each cell for missingness counts the nulls. */
  lemma {:induction false} CountIfMissing(col: seq<Cell>)
    ensures CountIf(col, IsMissing) == Nulls(col)
  {
    if |col| > 0 {
      var init := col[..|col| - 1];
      assert col == init + [col[|col| - 1]];
      CountIfMissing(init);
    }
  }

  /** A test that rejects missing cells counts the same before and after
      `dropna()`. */
  lemma {:induction false} CountIfPresent(col: seq<Cell>, p: Cell -> bool)
    requires !p(Missing)
    ensures CountIf(col, p) == CountIf(NonMissing(col), p)
  {
    if |col| > 0 {
      var init := col[..|col| - 1];
      var last := col[|col| - 1];
      assert col == init + [last];
      CountIfPresent(init, p);
      var rest := NonMissing(init);
      if last != Missing {
        assert (rest + [last])[..|rest|] == rest;
      }
    }
  }
}
