/** The dtype-based column profiler of the second front-end: a single
    dtype label, the counts, numeric statistics for int and float columns,
    the mode for text columns, and the five most frequent values. */
module ProfileV2 {
  import opened Wrappers
  import opened Cells
  import opened Frequency
  import opened Numeric
  import opened Stats
  import opened Tables

  /** What a column gets beyond the counts, by its dtype label. */
  datatype Extra = NumericExtra(stats: NumericStats) | TextMode(mode: seq<Cell>) | NoExtra

  datatype ColumnSummary = ColumnSummary(
    typeLabel: DtypeLabel, nulls: nat, nonNulls: nat, unique: nat, extra: Extra, top: seq<Entry>)

  /** The summary of one column. */
  function SummarizeColumn(c: Column): (r: ColumnSummary)
    ensures r.typeLabel == InferDtype(c.dtype)
    ensures r.nulls == Count(c.cells, Missing) && r.nonNulls == |NonMissing(c.cells)|
    ensures r.unique == |set v | v in c.cells && v != Missing|
    ensures r.nulls + r.nonNulls == |c.cells| && r.unique <= r.nonNulls
    ensures r.extra.NumericExtra? <==> r.typeLabel == LInt || r.typeLabel == LFloat
    ensures r.extra.TextMode? <==> r.typeLabel == LStr
    ensures r.extra.NumericExtra? ==> r.extra.stats == NumericStatsOf(c.cells)
    ensures r.extra.TextMode? ==> |r.extra.mode| <= 1
    ensures r.extra.TextMode? && |r.extra.mode| == 1 ==>
              && r.extra.mode[0] in c.cells && r.extra.mode[0] != Missing
              && forall v :: v in c.cells && v != Missing ==> Count(c.cells, v) <= Count(c.cells, r.extra.mode[0])
    ensures |r.top| == Min(5, |Distinct(c.cells)|)
    ensures NonIncreasing(r.top) && FaithfulTo(r.top, c.cells) && DistinctValues(r.top)
  {
    var typeLabel := InferDtype(c.dtype);
    var extra :=
      if typeLabel == LInt || typeLabel == LFloat then NumericExtra(NumericStatsOf(c.cells))
      else if typeLabel == LStr then TextMode(Mode(c.cells))
      else NoExtra;
    NullsPlusNonNulls(c.cells);
    ColumnSummary(typeLabel, Nulls(c.cells), NonNulls(c.cells), Unique(c.cells), extra, TopValues(c.cells, 5))
  }

  /** Bool, datetime and unknown columns get no statistics at all. */
  lemma OtherLabelsNoStats(c: Column)
    requires InferDtype(c.dtype) in {LBool, LDatetime, LUnknown}
    ensures SummarizeColumn(c).extra == NoExtra
  {
  }

  /** A numeric column of consistent dtype with a present value has every
      statistic, ordered min <= median <= max and min <= mean <= max, with
      min and max taken from the column. */
  lemma NumericColumnStats(c: Column, k: nat)
    requires DtypeConsistent(c)
    requires InferDtype(c.dtype) == LInt || InferDtype(c.dtype) == LFloat
    requires k < |c.cells| && c.cells[k] != Missing
    ensures var s := SummarizeColumn(c).extra.stats;
      && s.min.Some? && s.median.Some? && s.mean.Some? && s.max.Some?
      && s.min.value <= s.median.value <= s.max.value
      && s.min.value <= s.mean.value <= s.max.value
      && (exists v :: v in c.cells && NumOf(v) == s.min)
      && (exists v :: v in c.cells && NumOf(v) == s.max)
  {
    assert c.cells[k].I? || c.cells[k].R?;
    assert c.cells[k] in c.cells;
    NumbersComplete(c.cells);
  }

  /** `generate_column_summary(df)`: one summary per column, in order. */
  function GenerateColumnSummary(t: Table): (r: seq<(string, ColumnSummary)>)
    ensures |r| == |t.columns|
    ensures forall k :: 0 <= k < |t.columns| ==> r[k].0 == t.columns[k].name && r[k].1 == SummarizeColumn(t.columns[k])
    ensures forall k :: 0 <= k < |t.columns| ==> r[k].1.typeLabel == InferDtype(t.columns[k].dtype)
  {
    seq(|t.columns|, k requires 0 <= k < |t.columns| => (t.columns[k].name, SummarizeColumn(t.columns[k])))
  }
}
