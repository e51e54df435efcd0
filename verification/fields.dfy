/** The summary fields the two later column profilers compute alike:
    the fill percentage, and Max/Min chosen by frequency for text columns
    and by order otherwise. */
module Fields {
  import opened Wrappers
  import opened Cells
  import opened Frequency
  import opened Kinds
  import opened Ordering
  import opened Tables

  // ---------------------------------------------------------------------
  // Counts and the fill percentage
  // ---------------------------------------------------------------------

  /** `fill` is the share of `part` in `whole`, in percent. */
  predicate IsPercentOf(fill: real, part: nat, whole: nat) {
    0.0 <= fill <= 100.0 && fill * whole as real == 100.0 * part as real
  }

  /** `100 * part / whole` is a percentage: 100 exactly for the whole and 0
      exactly for nothing. */
  lemma PercentBounds(part: nat, whole: nat)
    requires 0 < whole && part <= whole
    ensures IsPercentOf(100.0 * part as real / whole as real, part, whole)
    ensures 100.0 * part as real / whole as real == 100.0 <==> part == whole
    ensures 100.0 * part as real / whole as real == 0.0 <==> part == 0
  {
    var n := whole as real;
    var v := 100.0 * part as real / n;
    assert v * n == 100.0 * part as real;
    assert part as real <= n;
  }

  /** `round(100 * non_nulls / len(col), 2)` without the rounding; a column
      of no rows divides by zero. */
  function FillPercent(col: seq<Cell>): (r: Result<real>)
    ensures r.Err? <==> |col| == 0
    ensures r.Err? ==> r.error == ZeroDivision
    ensures r.Ok? ==> IsPercentOf(r.value, NonNulls(col), |col|)
    ensures r.Ok? ==> (r.value == 100.0 <==> Nulls(col) == 0)
    ensures r.Ok? ==> (r.value == 0.0 <==> forall i :: 0 <= i < |col| ==> col[i] == Missing)
  {
    if |col| == 0 then Err(ZeroDivision)
    else
      NullsPlusNonNulls(col);
      NonNullsZero(col);
      PercentBounds(NonNulls(col), |col|);
      Ok(100.0 * NonNulls(col) as real / |col| as real)
  }

  // ---------------------------------------------------------------------
  // Max and Min
  // ---------------------------------------------------------------------

  /** The Type string starts with "str": the column holds text and "str" is
      listed first. The listing order of a Python set is not modelled;
      `strFirst` says, for tag sets holding "str" and another kind, whether
      "str" comes first. */
  predicate TextFirst(col: seq<Cell>, strFirst: set<Tag> -> bool) {
    var primary := PrimaryTags(col);
    TStr in primary && (primary == {TStr} || strFirst(primary))
  }

  /** Max (`most`) or Min of the summary: for a text-first column the most
      (least) frequent present value, by `value_counts().idxmax()`
      (`idxmin()`); otherwise `col.max()` (`col.min()`), "-" when that
      raises. */
  function MaxMin(col: seq<Cell>, strFirst: set<Tag> -> bool, most: bool): (r: Extreme)
    ensures TextFirst(col, strFirst) ==> r.Value? && r.cell in col && r.cell != Missing
    ensures TextFirst(col, strFirst) ==> forall c :: c in col && c != Missing ==>
              if most then Count(col, c) <= Count(col, r.cell) else Count(col, r.cell) <= Count(col, c)
    ensures !TextFirst(col, strFirst) ==> (r == NaN <==> forall i :: 0 <= i < |col| ==> col[i] == Missing)
    ensures !TextFirst(col, strFirst) ==> (r == Dash <==> (exists i :: 0 <= i < |col| && col[i] != Missing) && !Comparable(col))
    ensures !TextFirst(col, strFirst) && r.Value? ==> r.cell in col && r.cell != Missing && HasKey(r.cell)
    ensures !TextFirst(col, strFirst) && r.Value? ==> forall i :: 0 <= i < |col| && col[i] != Missing ==>
              HasKey(col[i]) && if most then Key(col[i]) <= Key(r.cell) else Key(r.cell) <= Key(col[i])
  {
    if TextFirst(col, strFirst) then
      var i :| 0 <= i < |col| && col[i] != Missing && MapType(col[i]) == TStr;
      assert col[i] in col;
      match Extremal(col, most)
      case Some(v) => Value(v)
      case None => Dash
    else OrderExtreme(col, most)
  }

  /** For a column of text the listing order does not matter: Max is a most
      frequent value and Min a least frequent one, so Max occurs at least
      as often as Min. */
  lemma TextColumnMaxMin(col: seq<Cell>, strFirst: set<Tag> -> bool)
    requires PrimaryTags(col) == {TStr}
    ensures MaxMin(col, strFirst, true).Value? && MaxMin(col, strFirst, false).Value?
    ensures Count(col, MaxMin(col, strFirst, false).cell) <= Count(col, MaxMin(col, strFirst, true).cell)
  {
    var lo := MaxMin(col, strFirst, false).cell;
    assert lo in col && lo != Missing;
  }

  /** The ordered branch sees a string only next to a present cell of
      another kind, where Python's `<` between the two raises: so a column
      of strings alone never reaches `col.max()`. */
  lemma OrderedBranchStringHasOtherKind(col: seq<Cell>, strFirst: set<Tag> -> bool, k: nat)
    requires !TextFirst(col, strFirst) && k < |col| && col[k].S?
    ensures exists j :: 0 <= j < |col| && col[j] != Missing && !col[j].S?
  {
    var primary := PrimaryTags(col);
    assert MapType(col[k]) == TStr;
    assert TStr in primary && primary != {TStr};
    var t :| t in primary && t != TStr;
    var j :| 0 <= j < |col| && col[j] != Missing && MapType(col[j]) == t;
    assert !col[j].S?;
  }

  /** Outside the text branch, a column holding text has "-" as Max and Min. */
  lemma TextOutsideTextBranch(col: seq<Cell>, strFirst: set<Tag> -> bool, k: nat)
    requires !TextFirst(col, strFirst) && k < |col| && col[k].S?
    ensures MaxMin(col, strFirst, true) == Dash && MaxMin(col, strFirst, false) == Dash
  {
    TextIsNotOrdered(col, k);
  }

  // ---------------------------------------------------------------------
  // The loop over the columns
  // ---------------------------------------------------------------------

  /** `for col in df.columns`: each column summarised in order under its
      name; the first column whose summary raises aborts the whole run. */
  function SummarizeEach<S>(cols: seq<Column>, summarize: seq<Cell> -> Result<S>): (r: Result<seq<(string, S)>>)
    ensures r.Err? <==> exists k :: 0 <= k < |cols| && summarize(cols[k].cells).Err?
    ensures r.Ok? ==> |r.value| == |cols|
    ensures r.Ok? ==> forall k :: 0 <= k < |cols| ==>
              r.value[k].0 == cols[k].name && summarize(cols[k].cells) == Ok(r.value[k].1)
  {
    if |cols| == 0 then Ok([])
    else
      var head :- summarize(cols[0].cells);
      var rest :- SummarizeEach(cols[1..], summarize);
      assert forall k :: 1 <= k < |cols| ==> cols[k] == cols[1..][k - 1];
      Ok([(cols[0].name, head)] + rest)
  }
}
