/** Frequency tables over a column: pandas' `value_counts()` (sorted by
    descending count, optionally keeping missing as its own category), its
    `head(k)`, `idxmax()`/`idxmin()` and `mode().values[:1]`. */
module Frequency {
  import opened Wrappers
  import opened Cells

  /** One row of a frequency table: a value and how often it occurs. */
  datatype Entry = Entry(value: Cell, count: nat)

  predicate NonIncreasing(xs: seq<Entry>) {
    forall i, j :: 0 <= i < j < |xs| ==> xs[i].count >= xs[j].count
  }

  predicate DistinctValues(xs: seq<Entry>) {
    forall i, j :: 0 <= i < j < |xs| ==> xs[i].value != xs[j].value
  }

  /** Every entry holds the true frequency of its value in `col`. */
  predicate FaithfulTo(xs: seq<Entry>, col: seq<Cell>) {
    forall i :: 0 <= i < |xs| ==> xs[i].value in col && xs[i].count == Count(col, xs[i].value)
  }

  function Min(a: nat, b: nat): nat { if a <= b then a else b }

  /** The unsorted table: one entry per distinct value, first occurrence first. */
  function Tally(col: seq<Cell>): (r: seq<Entry>)
    ensures |r| == |Distinct(col)|
    ensures FaithfulTo(r, col)
    ensures NoDups(r)
    ensures forall v :: v in col ==> Entry(v, Count(col, v)) in r
  {
    var d := Distinct(col);
    var r := seq(|d|, i requires 0 <= i < |d| => Entry(d[i], Count(col, d[i])));
    assert forall v :: v in col ==> Entry(v, Count(col, v)) in r by {
      forall v | v in col
        ensures Entry(v, Count(col, v)) in r
      {
        var k :| 0 <= k < |d| && d[k] == v;
        assert r[k] == Entry(v, Count(col, v));
      }
    }
    r
  }

  // ---------------------------------------------------------------------
  // Sorting by descending count
  // ---------------------------------------------------------------------

  /** Puts `e` after every entry whose count is at least `e.count`. */
  function Insert(e: Entry, xs: seq<Entry>): (r: seq<Entry>)
    ensures |r| == |xs| + 1
    ensures r[0] == e || (|xs| > 0 && r[0] == xs[0])
  {
    if |xs| == 0 then [e]
    else if xs[0].count >= e.count then [xs[0]] + Insert(e, xs[1..])
    else [e] + xs
  }

  /** Inserting keeps a table in non-increasing count order. */
  lemma {:induction false} InsertSorted(e: Entry, xs: seq<Entry>)
    requires NonIncreasing(xs)
    ensures NonIncreasing(Insert(e, xs))
  {
    if |xs| > 0 && xs[0].count >= e.count {
      var rest := Insert(e, xs[1..]);
      InsertSorted(e, xs[1..]);
      assert rest[0].count <= xs[0].count;
    }
  }

  /** Inserting adds `e` and loses nothing. */
  lemma {:induction false} InsertPermutes(e: Entry, xs: seq<Entry>)
    ensures multiset(Insert(e, xs)) == multiset(xs) + multiset{e}
  {
    if |xs| > 0 && xs[0].count >= e.count {
      InsertPermutes(e, xs[1..]);
      assert xs == [xs[0]] + xs[1..];
    }
  }

  /** Stable insertion sort into non-increasing count order. */
  function SortByCount(xs: seq<Entry>): (r: seq<Entry>)
    ensures NonIncreasing(r)
    ensures multiset(r) == multiset(xs)
    ensures |r| == |xs|
  {
    if |xs| == 0 then []
    else
      var init := SortByCount(xs[..|xs| - 1]);
      InsertSorted(xs[|xs| - 1], init);
      InsertPermutes(xs[|xs| - 1], init);
      assert xs == xs[..|xs| - 1] + [xs[|xs| - 1]];
      Insert(xs[|xs| - 1], init)
  }

  /** A permutation of a duplicate-free sequence is duplicate-free. */
  lemma PermutationNoDups(a: seq<Entry>, b: seq<Entry>)
    requires NoDups(a) && multiset(a) == multiset(b)
    ensures NoDups(b)
  {
    NoDupsMultiset(a);
    MultisetNoDups(b);
  }

  /** Rearranging a faithful table keeps it faithful. */
  lemma PermutationFaithful(t: seq<Entry>, r: seq<Entry>, col: seq<Cell>)
    requires FaithfulTo(t, col) && multiset(t) == multiset(r)
    ensures FaithfulTo(r, col)
  {
    forall i | 0 <= i < |r|
      ensures r[i].value in col && r[i].count == Count(col, r[i].value)
    {
      assert r[i] in multiset(r);
      assert r[i] in t;
    }
  }

  /** In a faithful table without repeated entries no value appears twice. */
  lemma FaithfulDistinctValues(r: seq<Entry>, col: seq<Cell>)
    requires FaithfulTo(r, col) && NoDups(r)
    ensures DistinctValues(r)
  {
  }

  /** Rearranging a table that lists every value of `col` still lists it. */
  lemma PermutationCovers(t: seq<Entry>, r: seq<Entry>, col: seq<Cell>)
    requires forall v :: v in col ==> Entry(v, Count(col, v)) in t
    requires multiset(t) == multiset(r)
    ensures forall v :: v in col ==> exists i :: 0 <= i < |r| && r[i].value == v
  {
    forall v | v in col
      ensures exists i :: 0 <= i < |r| && r[i].value == v
    {
      assert Entry(v, Count(col, v)) in multiset(t);
      assert Entry(v, Count(col, v)) in r;
    }
  }

  /** `col.value_counts(dropna=False)`: every distinct value of `col`,
      missing included, once, with its frequency, most frequent first. */
  function ValueCounts(col: seq<Cell>): (r: seq<Entry>)
    ensures NonIncreasing(r)
    ensures FaithfulTo(r, col)
    ensures DistinctValues(r)
    ensures |r| == |Distinct(col)|
    ensures forall v :: v in col ==> exists i :: 0 <= i < |r| && r[i].value == v
  {
    var t := Tally(col);
    var r := SortByCount(t);
    PermutationNoDups(t, r);
    PermutationFaithful(t, r, col);
    FaithfulDistinctValues(r, col);
    PermutationCovers(t, r, col);
    r
  }

  /** Cutting a complete, sorted table after `k` rows leaves out only values
      no more frequent than any row kept. */
  lemma HeadIsTop(all: seq<Entry>, col: seq<Cell>, k: nat)
    requires NonIncreasing(all)
    requires forall v :: v in col ==> exists i :: 0 <= i < |all| && all[i].value == v
    ensures var r := all[..Min(k, |all|)];
      forall v :: v in col && (forall i :: 0 <= i < |r| ==> r[i].value != v) ==>
        exists p :: |r| <= p < |all| && all[p].value == v
  {
  }

  /** `value_counts(dropna=False).head(k)`: the `k` most frequent values,
      missing counted as a category of its own. */
  function TopValues(col: seq<Cell>, k: nat): (r: seq<Entry>)
    ensures |r| == Min(k, |Distinct(col)|)
    ensures NonIncreasing(r)
    ensures FaithfulTo(r, col)
    ensures DistinctValues(r)
    ensures forall v :: v in col && (forall i :: 0 <= i < |r| ==> r[i].value != v) ==>
              forall i :: 0 <= i < |r| ==> Count(col, v) <= r[i].count
  {
    var all := ValueCounts(col);
    HeadIsTop(all, col, k);
    all[..Min(k, |all|)]
  }

  // ---------------------------------------------------------------------
  // Most and least frequent present value
  // ---------------------------------------------------------------------

  /** The candidate whose frequency in `col` is highest (`most`) or lowest. */
  function Pick(cands: seq<Cell>, col: seq<Cell>, most: bool): (r: Cell)
    requires |cands| > 0
    ensures r in cands
    ensures forall c :: c in cands ==> if most then Count(col, c) <= Count(col, r) else Count(col, r) <= Count(col, c)
  {
    if |cands| == 1 then cands[0]
    else
      var best := Pick(cands[..|cands| - 1], col, most);
      var last := cands[|cands| - 1];
      assert cands == cands[..|cands| - 1] + [last];
      var better := if most then Count(col, last) > Count(col, best) else Count(col, last) < Count(col, best);
      if better then last else best
  }

  /** The most (`most`) or least frequent present value of `col`, as
      `col.value_counts().idxmax()` / `idxmin()` give it; `None` where
      those raise because every cell is missing. */
  function Extremal(col: seq<Cell>, most: bool): (r: Option<Cell>)
    ensures r.None? <==> forall c :: c in col ==> c == Missing
    ensures r.Some? ==> r.value in col && r.value != Missing
    ensures r.Some? ==> forall c :: c in col && c != Missing ==>
              if most then Count(col, c) <= Count(col, r.value) else Count(col, r.value) <= Count(col, c)
  {
    var present := NonMissing(col);
    if |present| == 0 then None else Some(Pick(present, col, most))
  }

  function MostFrequent(col: seq<Cell>): Option<Cell> { Extremal(col, true) }

  function LeastFrequent(col: seq<Cell>): Option<Cell> { Extremal(col, false) }

  /** The most frequent value is at least as frequent as the least frequent one. */
  lemma MostAtLeastLeast(col: seq<Cell>)
    requires MostFrequent(col).Some?
    ensures LeastFrequent(col).Some?
    ensures Count(col, LeastFrequent(col).value) <= Count(col, MostFrequent(col).value)
  {
  }

  /** `col.mode().values[:1]`: a one-element list holding a most frequent
      present value, or the empty list when every cell is missing. */
  function Mode(col: seq<Cell>): (r: seq<Cell>)
    ensures |r| <= 1
    ensures |r| == 0 <==> forall c :: c in col ==> c == Missing
    ensures |r| == 1 ==> r[0] in col && r[0] != Missing
    ensures |r| == 1 ==> forall c :: c in col && c != Missing ==> Count(col, c) <= Count(col, r[0])
  {
    match MostFrequent(col)
    case None => []
    case Some(v) => [v]
  }
}
