/** The command-line analyst's `initial_data_check(df)`: per column the
    runtime classes of the present values and the mixed-type warning, the
    dtype label, the counts, the datetime checks, the e-mail and mobile
    checks on text, numeric statistics, the mode, and the ten most frequent
    values. The printed layout is not part of this model; the values it
    prints are. */
module CheckV5 {
  import opened Wrappers
  import opened Cells
  import opened Frequency
  import opened Validators
  import opened Stats
  import opened Tables

  /** `pd.to_datetime(col, errors="coerce")` turns everything that is not a
      timestamp into NaT. */
  predicate NotTimestamp(c: Cell) { !c.Ts? }

  /** The invalid and out-of-range counts of a datetime column. */
  datatype DateCheck = DateCheck(invalid: nat, outOfRange: nat)

  /** How many present values of a text column look like an e-mail address
      and like a mobile number. */
  datatype TextCheck = TextCheck(emails: nat, mobiles: nat)

  /** A line the text checks print; each is printed only when its count is
      positive. */
  datatype TextFinding = EmailLike(emails: nat) | MobileLike(mobiles: nat)

  datatype ColumnCheck = ColumnCheck(
    name: string, types: set<RuntimeType>, mixedTypes: bool, typeLabel: DtypeLabel,
    nulls: nat, nonNulls: nat, unique: nat,
    dates: Option<DateCheck>, text: Option<TextCheck>,
    stats: Option<NumericStats>, mode: Option<seq<Cell>>, top: seq<Entry>)

  // ---------------------------------------------------------------------
  // Runtime classes of the present values
  // ---------------------------------------------------------------------

  /** `col.dropna().map(type)`'s distinct values. */
  function PresentTypes(col: seq<Cell>): (r: set<RuntimeType>)
    ensures forall i :: 0 <= i < |col| && col[i] != Missing ==> TypeOf(col[i]) in r
    ensures forall t :: t in r ==> exists i :: 0 <= i < |col| && col[i] != Missing && TypeOf(col[i]) == t
    ensures r == {} <==> forall i :: 0 <= i < |col| ==> col[i] == Missing
  {
    var r := set i | 0 <= i < |col| && col[i] != Missing :: TypeOf(col[i]);
    assert forall i :: 0 <= i < |col| && col[i] != Missing ==> TypeOf(col[i]) in r;
    r
  }

  /** Two present values of different runtime classes make the warning. */
  lemma TwoClassesMixed(col: seq<Cell>, i: nat, j: nat)
    requires i < |col| && j < |col| && col[i] != Missing && col[j] != Missing
    requires TypeOf(col[i]) != TypeOf(col[j])
    ensures |PresentTypes(col)| > 1
  {
    var pair := {TypeOf(col[i]), TypeOf(col[j])};
    assert |pair| == 2;
    SubsetCardinality(pair, PresentTypes(col));
  }

  /** The warning means two present values of different runtime classes. */
  lemma MixedHasTwoClasses(col: seq<Cell>)
    requires |PresentTypes(col)| > 1
    ensures exists i, j :: 0 <= i < |col| && 0 <= j < |col| && col[i] != Missing && col[j] != Missing && TypeOf(col[i]) != TypeOf(col[j])
  {
    var r := PresentTypes(col);
    var a :| a in r;
    assert |r - {a}| == |r| - 1;
    var b :| b in r - {a};
    var i :| 0 <= i < |col| && col[i] != Missing && TypeOf(col[i]) == a;
    var j :| 0 <= j < |col| && col[j] != Missing && TypeOf(col[j]) == b;
    assert TypeOf(col[i]) != TypeOf(col[j]);
  }

  lemma SubsetCardinality<T>(a: set<T>, b: set<T>)
    requires a <= b
    ensures |a| <= |b|
  {
    assert b == a + (b - a);
  }

  /** A column whose values all have one runtime class never warns. */
  lemma OneClassNotMixed(col: seq<Cell>, ty: RuntimeType)
    requires forall i :: 0 <= i < |col| && col[i] != Missing ==> TypeOf(col[i]) == ty
    ensures |PresentTypes(col)| <= 1
  {
    assert PresentTypes(col) <= {ty};
    SubsetCardinality(PresentTypes(col), {ty});
  }

  /** A column whose cells agree with an int, float, bool or datetime dtype
      never carries the mixed-type warning. */
  lemma ConsistentColumnNotMixed(c: Column)
    requires DtypeConsistent(c) && InferDtype(c.dtype) != LStr && InferDtype(c.dtype) != LUnknown
    ensures |PresentTypes(c.cells)| <= 1
  {
    var l := InferDtype(c.dtype);
    var ty := if l == LInt then TyInt else if l == LFloat then TyFloat else if l == LBool then TyBool else TyTimestamp;
    OneClassNotMixed(c.cells, ty);
  }

  /** A text column holding a number next to a string warns. */
  lemma StringNextToIntIsMixed(col: seq<Cell>, i: nat, j: nat)
    requires i < |col| && j < |col| && col[i].S? && col[j].I?
    ensures |PresentTypes(col)| > 1
  {
    TwoClassesMixed(col, i, j);
  }

  // ---------------------------------------------------------------------
  // Datetime and text checks
  // ---------------------------------------------------------------------

  /** The number of cells that do not convert to a timestamp, and the
      number of timestamps whose year lies outside 1900..2100. */
  function DateCheckOf(col: seq<Cell>): (r: DateCheck)
    ensures r.invalid == |set i | 0 <= i < |col| && !col[i].Ts?|
    ensures r.outOfRange == |set i | 0 <= i < |col| && col[i].Ts? && (col[i].year < 1900 || col[i].year > 2100)|
    ensures r.outOfRange <= |col| && r.invalid <= |col|
  {
    assert Passing(col, NotTimestamp) == set i | 0 <= i < |col| && !col[i].Ts?;
    assert Passing(col, OutOfRangeYear) == set i | 0 <= i < |col| && col[i].Ts? && (col[i].year < 1900 || col[i].year > 2100);
    DateCheck(CountIf(col, NotTimestamp), CountIf(col, OutOfRangeYear))
  }

  /** On a column of timestamps and missing cells the invalid count is the
      null count, and invalid, in-range and out-of-range values add up to
      the row count. */
  lemma DateCountsPartition(col: seq<Cell>)
    requires forall i :: 0 <= i < |col| ==> col[i].Ts? || col[i] == Missing
    ensures DateCheckOf(col).invalid == Nulls(col)
    ensures DateCheckOf(col).invalid + DateCheckOf(col).outOfRange + CountIf(col, InRangeYear) == |col|
  {
    SameCount(col, NotTimestamp, IsMissing);
    CountIfMissing(col);
    YearCountsPartition(col);
  }

  /** Two tests that agree on every cell count the same. */
  lemma {:induction false} SameCount(col: seq<Cell>, p: Cell -> bool, q: Cell -> bool)
    requires forall i :: 0 <= i < |col| ==> p(col[i]) == q(col[i])
    ensures CountIf(col, p) == CountIf(col, q)
  {
    if |col| > 0 {
      var init := col[..|col| - 1];
      assert forall i :: 0 <= i < |init| ==> init[i] == col[i];
      SameCount(init, p, q);
    }
  }

  /** Both regular expressions applied to `col.dropna()`. */
  function TextCheckOf(col: seq<Cell>): (r: TextCheck)
    ensures r.emails == |set i | 0 <= i < |col| && EmailCell(col[i])|
    ensures r.mobiles == |set i | 0 <= i < |col| && MobileCell(col[i])|
    ensures r.emails <= NonNulls(col) && r.mobiles <= NonNulls(col)
    ensures r.emails == 0 <==> forall i :: 0 <= i < |col| ==> !EmailCell(col[i])
    ensures r.mobiles == 0 <==> forall i :: 0 <= i < |col| ==> !MobileCell(col[i])
  {
    var present := NonMissing(col);
    CountIfPresent(col, EmailCell);
    CountIfPresent(col, MobileCell);
    var emails := CountIf(present, EmailCell);
    var mobiles := CountIf(present, MobileCell);
    assert Passing(col, EmailCell) == set i | 0 <= i < |col| && EmailCell(col[i]);
    assert Passing(col, MobileCell) == set i | 0 <= i < |col| && MobileCell(col[i]);
    assert emails <= |present| && mobiles <= |present|;
    TextCheck(emails, mobiles)
  }

  /** The lines the text checks print, e-mail first. */
  function TextFindings(tc: TextCheck): seq<TextFinding> {
    (if tc.emails > 0 then [EmailLike(tc.emails)] else [])
    + (if tc.mobiles > 0 then [MobileLike(tc.mobiles)] else [])
  }

  predicate HasEmailLine(f: seq<TextFinding>) { exists k :: 0 <= k < |f| && f[k].EmailLike? }

  predicate HasMobileLine(f: seq<TextFinding>) { exists k :: 0 <= k < |f| && f[k].MobileLike? }

  /** Each line is printed exactly when its count is positive. */
  lemma TextFindingsShown(tc: TextCheck)
    ensures HasEmailLine(TextFindings(tc)) <==> tc.emails > 0
    ensures HasMobileLine(TextFindings(tc)) <==> tc.mobiles > 0
  {
    var f := TextFindings(tc);
    if tc.emails > 0 {
      assert f[0].EmailLike?;
    } else {
      assert f == (if tc.mobiles > 0 then [MobileLike(tc.mobiles)] else []);
    }
    if tc.mobiles > 0 {
      assert f[|f| - 1].MobileLike?;
    } else {
      assert f == (if tc.emails > 0 then [EmailLike(tc.emails)] else []);
    }
  }

  /** The e-mail line is printed exactly when some value is e-mail-like,
      and the mobile line exactly when some value is mobile-like. */
  lemma TextLinesIff(col: seq<Cell>)
    ensures HasEmailLine(TextFindings(TextCheckOf(col))) <==> exists i :: 0 <= i < |col| && EmailCell(col[i])
    ensures HasMobileLine(TextFindings(TextCheckOf(col))) <==> exists i :: 0 <= i < |col| && MobileCell(col[i])
  {
    TextFindingsShown(TextCheckOf(col));
  }

  // ---------------------------------------------------------------------
  // One column and the whole table
  // ---------------------------------------------------------------------

  function CheckColumn(c: Column): (r: ColumnCheck)
    ensures r.name == c.name && r.typeLabel == InferDtype(c.dtype)
    ensures r.types == PresentTypes(c.cells) && (r.mixedTypes <==> |r.types| > 1)
    ensures r.nulls == Count(c.cells, Missing) && r.nonNulls == |NonMissing(c.cells)|
    ensures r.unique == |set v | v in c.cells && v != Missing|
    ensures r.nulls + r.nonNulls == |c.cells| && r.unique <= r.nonNulls
    ensures r.dates == (if r.typeLabel == LDatetime then Some(DateCheckOf(c.cells)) else None)
    ensures r.text == (if r.typeLabel == LStr then Some(TextCheckOf(c.cells)) else None)
    ensures r.stats == (if r.typeLabel == LInt || r.typeLabel == LFloat then Some(NumericStatsOf(c.cells)) else None)
    ensures r.mode == (if r.typeLabel == LStr || r.typeLabel == LBool then Some(Mode(c.cells)) else None)
    ensures r.dates.Some? <==> r.typeLabel == LDatetime
    ensures r.text.Some? <==> r.typeLabel == LStr
    ensures r.stats.Some? <==> r.typeLabel == LInt || r.typeLabel == LFloat
    ensures r.mode.Some? <==> r.typeLabel == LStr || r.typeLabel == LBool
    ensures r.text.Some? ==> r.text.value.emails <= r.nonNulls && r.text.value.mobiles <= r.nonNulls
    ensures r.mode.Some? ==> |r.mode.value| <= 1
    ensures |r.top| == Min(10, |Distinct(c.cells)|)
    ensures NonIncreasing(r.top) && FaithfulTo(r.top, c.cells) && DistinctValues(r.top)
  {
    var col := c.cells;
    var l := InferDtype(c.dtype);
    var types := PresentTypes(col);
    NullsPlusNonNulls(col);
    ColumnCheck(
      c.name, types, |types| > 1, l, Nulls(col), NonNulls(col), Unique(col),
      if l == LDatetime then Some(DateCheckOf(col)) else None,
      if l == LStr then Some(TextCheckOf(col)) else None,
      if l == LInt || l == LFloat then Some(NumericStatsOf(col)) else None,
      if l == LStr || l == LBool then Some(Mode(col)) else None,
      TopValues(col, 10))
  }

  /** `initial_data_check(df)`: the row and column counts and one check per
      column, in order. */
  function InitialDataCheck(t: Table): (r: (nat, nat, seq<ColumnCheck>))
    ensures r.0 == t.rows && r.1 == |t.columns| && |r.2| == |t.columns|
    ensures forall k :: 0 <= k < |t.columns| ==> r.2[k] == CheckColumn(t.columns[k])
    ensures forall k :: 0 <= k < |t.columns| ==> r.2[k].name == t.columns[k].name
  {
    (t.rows, |t.columns|, seq(|t.columns|, k requires 0 <= k < |t.columns| => CheckColumn(t.columns[k])))
  }

  /** On a well-formed table with consistent dtypes, a datetime column's
      invalid count is its null count and its three year classes cover its
      rows; no non-text column warns about mixed types. */
  lemma ConsistentTableChecks(t: Table, k: nat)
    requires WellFormed(t) && k < |t.columns| && DtypeConsistent(t.columns[k])
    ensures var r := InitialDataCheck(t).2[k];
      && (r.dates.Some? ==> r.dates.value.invalid == r.nulls
                            && r.dates.value.invalid + r.dates.value.outOfRange + CountIf(t.columns[k].cells, InRangeYear) == t.rows)
      && (r.typeLabel != LStr && r.typeLabel != LUnknown ==> !r.mixedTypes)
  {
    var c := t.columns[k];
    if InferDtype(c.dtype) == LDatetime {
      DateCountsPartition(c.cells);
    }
    if InferDtype(c.dtype) != LStr && InferDtype(c.dtype) != LUnknown {
      ConsistentColumnNotMixed(c);
    }
  }
}
