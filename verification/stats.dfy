/** The statistics the profilers print for an int or float column: mean,
    median, mode, minimum and maximum over the present values. */
module Stats {
  import opened Wrappers
  import opened Cells
  import opened Frequency
  import opened Numeric

  /** Mean, median, `mode().values[:1]`, min and max; `None` stands for the
      NaN pandas returns when no value is present. The standard deviation
      is not part of this model. */
  datatype NumericStats = NumericStats(mean: Option<real>, median: Option<real>, mode: seq<Cell>, min: Option<real>, max: Option<real>)

  function NumericStatsOf(col: seq<Cell>): (r: NumericStats)
    ensures var xs := Numbers(col);
      && (r.mean.Some? <==> |xs| > 0) && (r.median.Some? <==> |xs| > 0)
      && (r.min.Some? <==> |xs| > 0) && (r.max.Some? <==> |xs| > 0)
    ensures r.mean == Mean(Numbers(col)) && r.median == Median(Numbers(col))
    ensures |Numbers(col)| > 0 ==> r.min == Some(MinOf(Numbers(col))) && r.max == Some(MaxOf(Numbers(col)))
    ensures r.min.Some? ==> r.min.value <= r.median.value <= r.max.value
    ensures r.min.Some? ==> r.min.value <= r.mean.value <= r.max.value
    ensures r.min.Some? ==> exists c :: c in col && NumOf(c) == r.min
    ensures r.max.Some? ==> exists c :: c in col && NumOf(c) == r.max
    ensures r.min.Some? ==> forall c :: c in col && NumOf(c).Some? ==> r.min.value <= NumOf(c).value <= r.max.value
    ensures |r.mode| <= 1 && (|r.mode| == 0 <==> forall c :: c in col ==> c == Missing)
    ensures |r.mode| == 1 ==> r.mode[0] in col && forall c :: c in col && c != Missing ==> Count(col, c) <= Count(col, r.mode[0])
  {
    var xs := Numbers(col);
    NumbersComplete(col);
    if |xs| == 0 then NumericStats(None, None, Mode(col), None, None)
    else NumericStats(Mean(xs), Median(xs), Mode(col), Some(MinOf(xs)), Some(MaxOf(xs)))
  }

  /** Every number a cell stands for is among the column's numbers. */
  lemma {:induction false} NumbersComplete(col: seq<Cell>)
    ensures forall c :: c in col && NumOf(c).Some? ==> NumOf(c).value in Numbers(col)
  {
    if |col| > 0 {
      var init := col[..|col| - 1];
      var last := col[|col| - 1];
      assert col == init + [last];
      NumbersComplete(init);
    }
  }
}
