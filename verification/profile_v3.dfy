/** The earlier column profiler, `generate_column_summary` of the third
    front-end: the kind tags of the present cells with no extra flags, the
    mixed-type warning, the counts, the fill percentage, Max only, the five
    most frequent values, and an export name taken from the upload alone. */
module ProfileV3 {
  import opened Wrappers
  import opened Cells
  import opened Frequency
  import opened Kinds
  import opened Ordering
  import opened Tables
  import opened Paths
  import opened Fields

  datatype ColumnSummary = ColumnSummary(
    tags: set<Tag>, mixed: bool, nulls: nat, nonNulls: nat, fill: real, unique: nat,
    max: Extreme, top: seq<Entry>)

  /** The summary of one column; a column of no rows raises. The tags are
      exactly the runtime classes of the present cells. */
  function SummarizeColumn(col: seq<Cell>, strFirst: set<Tag> -> bool): (r: Result<ColumnSummary>)
    ensures r.Err? <==> |col| == 0
    ensures r.Ok? ==> r.value.tags == set i | 0 <= i < |col| && col[i] != Missing :: TagOfType(TypeOf(col[i]))
    ensures r.Ok? ==> (r.value.mixed <==> |r.value.tags| > 1)
    ensures r.Ok? ==> r.value.nulls == Count(col, Missing) && r.value.nonNulls == |NonMissing(col)|
    ensures r.Ok? ==> r.value.unique == |set c | c in col && c != Missing|
    ensures r.Ok? ==> r.value.nulls + r.value.nonNulls == |col| && r.value.unique <= r.value.nonNulls
    ensures r.Ok? ==> IsPercentOf(r.value.fill, r.value.nonNulls, |col|)
    ensures r.Ok? ==> r.value.max == MaxMin(col, strFirst, true)
    ensures r.Ok? ==> |r.value.top| == Min(5, |Distinct(col)|)
    ensures r.Ok? ==> NonIncreasing(r.value.top) && FaithfulTo(r.value.top, col) && DistinctValues(r.value.top)
  {
    var fill :- FillPercent(col);
    NullsPlusNonNulls(col);
    PrimaryTagsAreTypes(col);
    var tags := PrimaryTags(col);
    Ok(ColumnSummary(
      tags, |tags| > 1, Nulls(col), NonNulls(col), fill, Unique(col),
      MaxMin(col, strFirst, true), TopValues(col, 5)))
  }

  /** The earlier profiler never reports "str-numeric" or "numeric-mixed". */
  lemma NoExtraFlags(col: seq<Cell>, strFirst: set<Tag> -> bool)
    requires |col| > 0
    ensures TStrNumeric !in SummarizeColumn(col, strFirst).value.tags
    ensures TNumericMixed !in SummarizeColumn(col, strFirst).value.tags
  {
    PrimaryTagsAreTypes(col);
  }

  /** For a text column, Max is a most frequent present value. */
  lemma TextMaxIsMostFrequent(col: seq<Cell>, strFirst: set<Tag> -> bool)
    requires PrimaryTags(col) == {TStr}
    ensures MaxMin(col, strFirst, true).Value?
    ensures forall c :: c in col && c != Missing ==> Count(col, c) <= Count(col, MaxMin(col, strFirst, true).cell)
  {
  }

  /** Summaries of the columns in order; a column of no rows aborts. */
  function SummarizeColumns(cols: seq<Column>, strFirst: set<Tag> -> bool): (r: Result<seq<(string, ColumnSummary)>>)
    ensures r.Err? <==> exists k :: 0 <= k < |cols| && |cols[k].cells| == 0
    ensures r.Ok? ==> |r.value| == |cols|
    ensures r.Ok? ==> forall k :: 0 <= k < |cols| ==>
              r.value[k].0 == cols[k].name && SummarizeColumn(cols[k].cells, strFirst) == Ok(r.value[k].1)
  {
    SummarizeEach(cols, cells => SummarizeColumn(cells, strFirst))
  }

  /** `generate_column_summary(df)` with its export base name: the upload's
      stem, or "summary" when nothing was uploaded. */
  function GenerateColumnSummary(t: Table, strFirst: set<Tag> -> bool, upload: Option<string>)
    : (r: Result<(seq<(string, ColumnSummary)>, string)>)
    ensures r.Err? <==> exists k :: 0 <= k < |t.columns| && |t.columns[k].cells| == 0
    ensures r.Ok? ==> |r.value.0| == |t.columns|
    ensures r.Ok? ==> forall k :: 0 <= k < |t.columns| ==>
              r.value.0[k].0 == t.columns[k].name && SummarizeColumn(t.columns[k].cells, strFirst) == Ok(r.value.0[k].1)
    ensures r.Ok? ==> r.value.1 == BaseFilenameUploadOnly(upload)
    ensures r.Ok? && upload.None? ==> ExportName(r.value.1) == "summary_summary.csv"
  {
    NoUploadExportName();
    var summaries :- SummarizeColumns(t.columns, strFirst);
    Ok((summaries, BaseFilenameUploadOnly(upload)))
  }

  /** Without an upload the summary is exported as "summary_summary.csv". */
  lemma NoUploadExportName()
    ensures ExportName(BaseFilenameUploadOnly(None)) == "summary_summary.csv"
  {
  }
}
