/** The later column profiler, `generate_column_summary` of the sixth
    front-end: per column a set of kind tags with two extra flags, a
    mixed-type warning, null/non-null/unique counts, the fill percentage,
    Max and Min, the five most frequent values, and the export file name. */
module ProfileV6 {
  import opened Wrappers
  import opened Cells
  import opened Frequency
  import opened Validators
  import opened Kinds
  import opened Ordering
  import opened Tables
  import opened Paths
  import opened Fields

  // ---------------------------------------------------------------------
  // Tags and the mixed-type warning
  // ---------------------------------------------------------------------

  /** Some present cell is a string that reads as a number once its first
      '.' is deleted. */
  predicate HasStrNumeric(col: seq<Cell>) {
    exists i :: 0 <= i < |col| && col[i].S? && IsStrNumeric(col[i].s)
  }

  /** The Type field's tags: the kinds of the present cells, plus
      "str-numeric" when some string reads as a number, plus
      "numeric-mixed" when both "int" and "float" occur. */
  function Tags(col: seq<Cell>): (r: set<Tag>)
    ensures PrimaryTags(col) <= r
    ensures forall t :: t in r && IsPrimary(t) ==> t in PrimaryTags(col)
    ensures TStrNumeric in r <==> HasStrNumeric(col)
    ensures TNumericMixed in r <==> TInt in PrimaryTags(col) && TFloat in PrimaryTags(col)
  {
    var primary := PrimaryTags(col);
    var withText := if HasStrNumeric(col) then primary + {TStrNumeric} else primary;
    if TInt in primary && TFloat in primary then withText + {TNumericMixed} else withText
  }

  /** The warning sign is appended when more than one tag is listed. */
  predicate Mixed(col: seq<Cell>) { |Tags(col)| > 1 }

  /** A boolean cell is tagged "bool", never "int". */
  lemma BoolNotTaggedInt(col: seq<Cell>)
    requires forall i :: 0 <= i < |col| ==> col[i].B? || col[i] == Missing
    ensures TInt !in Tags(col) && TNumericMixed !in Tags(col) && TStrNumeric !in Tags(col)
  {
  }

  /** A text column with one numeric-looking string carries the warning. */
  lemma NumericTextIsMixed(col: seq<Cell>, k: nat)
    requires k < |col| && col[k].S? && IsStrNumeric(col[k].s)
    requires forall i :: 0 <= i < |col| ==> col[i].S? || col[i] == Missing
    ensures Tags(col) == {TStr, TStrNumeric}
    ensures Mixed(col)
  {
    assert MapType(col[k]) == TStr;
    assert Tags(col) == {TStr, TStrNumeric};
  }

  /** Ints next to floats raise both warnings' causes: three tags at least. */
  lemma IntAndFloatIsMixed(col: seq<Cell>, i: nat, j: nat)
    requires i < |col| && j < |col| && col[i].I? && col[j].R?
    ensures {TInt, TFloat, TNumericMixed} <= Tags(col)
    ensures Mixed(col)
  {
    assert MapType(col[i]) == TInt && MapType(col[j]) == TFloat;
    assert {TInt, TFloat} <= Tags(col);
  }

  /** A column of one kind without numeric-looking text has no warning. */
  lemma OneKindNotMixed(col: seq<Cell>, t: Tag)
    requires PrimaryTags(col) == {t}
    requires !HasStrNumeric(col)
    ensures Tags(col) == {t}
    ensures !Mixed(col)
  {
  }

  // ---------------------------------------------------------------------
  // One column and the whole table
  // ---------------------------------------------------------------------

  datatype ColumnSummary = ColumnSummary(
    tags: set<Tag>, mixed: bool, nulls: nat, nonNulls: nat, fill: real, unique: nat,
    max: Extreme, min: Extreme, top: seq<Entry>)

  /** The summary of one column; a column of no rows raises. */
  function SummarizeColumn(col: seq<Cell>, strFirst: set<Tag> -> bool): (r: Result<ColumnSummary>)
    ensures r.Err? <==> |col| == 0
    ensures r.Ok? ==> r.value.tags == Tags(col) && (r.value.mixed <==> |r.value.tags| > 1)
    ensures r.Ok? ==> r.value.nulls == Count(col, Missing) && r.value.nonNulls == |NonMissing(col)|
    ensures r.Ok? ==> r.value.unique == |set c | c in col && c != Missing|
    ensures r.Ok? ==> r.value.nulls + r.value.nonNulls == |col| && r.value.unique <= r.value.nonNulls
    ensures r.Ok? ==> IsPercentOf(r.value.fill, r.value.nonNulls, |col|)
    ensures r.Ok? ==> r.value.max == MaxMin(col, strFirst, true) && r.value.min == MaxMin(col, strFirst, false)
    ensures r.Ok? ==> |r.value.top| == Min(5, |Distinct(col)|)
    ensures r.Ok? ==> NonIncreasing(r.value.top) && FaithfulTo(r.value.top, col) && DistinctValues(r.value.top)
  {
    var fill :- FillPercent(col);
    NullsPlusNonNulls(col);
    Ok(ColumnSummary(
      Tags(col), Mixed(col), Nulls(col), NonNulls(col), fill, Unique(col),
      MaxMin(col, strFirst, true), MaxMin(col, strFirst, false), TopValues(col, 5)))
  }

  /** Summaries of the columns in order, each under its column's name;
      a column of no rows aborts the whole run. */
  function SummarizeColumns(cols: seq<Column>, strFirst: set<Tag> -> bool): (r: Result<seq<(string, ColumnSummary)>>)
    ensures r.Err? <==> exists k :: 0 <= k < |cols| && |cols[k].cells| == 0
    ensures r.Ok? ==> |r.value| == |cols|
    ensures r.Ok? ==> forall k :: 0 <= k < |cols| ==>
              r.value[k].0 == cols[k].name && SummarizeColumn(cols[k].cells, strFirst) == Ok(r.value[k].1)
  {
    SummarizeEach(cols, cells => SummarizeColumn(cells, strFirst))
  }

  /** `generate_column_summary(df)`: the column summaries and the base
      name of the exported file. */
  function GenerateColumnSummary(t: Table, strFirst: set<Tag> -> bool, upload: Option<string>, dbName: Option<string>, table: Option<string>)
    : (r: Result<(seq<(string, ColumnSummary)>, string)>)
    ensures r.Err? <==> exists k :: 0 <= k < |t.columns| && |t.columns[k].cells| == 0
    ensures r.Ok? ==> |r.value.0| == |t.columns|
    ensures r.Ok? ==> forall k :: 0 <= k < |t.columns| ==>
              r.value.0[k].0 == t.columns[k].name && SummarizeColumn(t.columns[k].cells, strFirst) == Ok(r.value.0[k].1)
    ensures r.Ok? ==> r.value.1 == BaseFilename(upload, dbName, table)
  {
    var summaries :- SummarizeColumns(t.columns, strFirst);
    Ok((summaries, BaseFilename(upload, dbName, table)))
  }

  /** On a well-formed table the profiler fails exactly when the table has
      columns but no rows. */
  lemma GenerateFailsOnlyOnEmptyRows(t: Table, strFirst: set<Tag> -> bool, upload: Option<string>, dbName: Option<string>, table: Option<string>)
    requires WellFormed(t)
    ensures GenerateColumnSummary(t, strFirst, upload, dbName, table).Err? <==> t.rows == 0 && |t.columns| > 0
  {
    if t.rows == 0 && |t.columns| > 0 {
      assert |t.columns[0].cells| == 0;
    }
  }
}
