/** The first front-end's `initial_data_check(df)`: the profile rendered as
    text, two header lines and one block of lines per column, joined with
    line feeds. */
module ReportV1 {
  import opened Wrappers
  import opened Cells
  import opened Text
  import opened Frequency
  import opened Stats
  import opened Tables

  /** The renderings the report takes from Python and numpy as they are:
      `f"{x:.2f}"` of a mean or median (NaN when absent), `str(x)` of a
      minimum or maximum, the printed `mode().values[:1]` array, the
      formatted standard deviation of the column, and `repr(v)`. */
  datatype Renderer = Renderer(
    fixed2: Option<real> -> string,
    scalar: Option<real> -> string,
    modeArray: seq<Cell> -> string,
    stdDev: seq<Cell> -> string,
    repr: Cell -> string)

  const Bullet: string := "  \U{2022} "

  /** A bulleted line reporting one count. */
  function CountLine(title: string, n: nat): string {
    Bullet + title + ": " + NatToString(n)
  }

  /** The count a bulleted count line reports, if it is one for `title`. */
  function ReadCount(title: string, line: string): Option<nat> {
    var p := Bullet + title + ": ";
    if |p| <= |line| && line[..|p|] == p && AllDigits(line[|p|..]) then Some(ParseDigits(line[|p|..]))
    else None
  }

  /** Every count line reads back as the count it was made from. */
  lemma ReadCountLine(title: string, n: nat)
    ensures ReadCount(title, CountLine(title, n)) == Some(n)
  {
    var p := Bullet + title + ": ";
    var line := CountLine(title, n);
    assert line == p + NatToString(n);
    assert line[..|p|] == p && line[|p|..] == NatToString(n);
    ParseNatToString(n);
  }

  /** What the report states about one column, computed before rendering:
      its name and dtype label, the null, non-null and distinct counts,
      the numeric statistics, the mode and the five most frequent values. */
  datatype Facts = Facts(
    name: string, typeLabel: DtypeLabel, nulls: nat, nonNulls: nat, unique: nat,
    stats: NumericStats, mode: seq<Cell>, top: seq<Entry>)

  function FactsOf(c: Column): (f: Facts)
    ensures f.name == c.name && f.typeLabel == InferDtype(c.dtype)
    ensures f.nulls == Count(c.cells, Missing) && f.nonNulls == |NonMissing(c.cells)|
    ensures f.unique == |set v | v in c.cells && v != Missing|
    ensures f.nulls + f.nonNulls == |c.cells| && f.unique <= f.nonNulls
    ensures f.stats == NumericStatsOf(c.cells)
    ensures |f.mode| <= 1 && (|f.mode| == 1 ==> f.mode[0] in c.cells && f.mode[0] != Missing)
    ensures |f.mode| == 1 ==> forall v :: v in c.cells && v != Missing ==> Count(c.cells, v) <= Count(c.cells, f.mode[0])
    ensures |f.top| == Min(5, |Distinct(c.cells)|)
    ensures NonIncreasing(f.top) && FaithfulTo(f.top, c.cells)
  {
    NullsPlusNonNulls(c.cells);
    Facts(c.name, InferDtype(c.dtype), Nulls(c.cells), NonNulls(c.cells), Unique(c.cells),
          NumericStatsOf(c.cells), Mode(c.cells), TopValues(c.cells, 5))
  }

  /** How many statistic lines a column of the given label gets. */
  function StatLineCount(l: DtypeLabel): nat {
    if l == LInt || l == LFloat then 6 else if l == LStr then 1 else 0
  }

  /** Mean, median, mode, standard deviation, min and max for int and float
      columns; the mode alone for text columns; nothing otherwise. */
  function StatLines(rd: Renderer, f: Facts, cells: seq<Cell>): (r: seq<string>)
    ensures |r| == StatLineCount(f.typeLabel)
    ensures f.typeLabel == LInt || f.typeLabel == LFloat ==>
      && r[0] == Bullet + "Mean: " + rd.fixed2(f.stats.mean)
      && r[1] == Bullet + "Median: " + rd.fixed2(f.stats.median)
      && r[2] == Bullet + "Mode: " + rd.modeArray(f.stats.mode)
      && r[3] == Bullet + "Std Dev: " + rd.stdDev(cells)
      && r[4] == Bullet + "Min: " + rd.scalar(f.stats.min)
      && r[5] == Bullet + "Max: " + rd.scalar(f.stats.max)
    ensures f.typeLabel == LStr ==> r == [Bullet + "Mode: " + rd.modeArray(f.mode)]
  {
    var s := f.stats;
    if f.typeLabel == LInt || f.typeLabel == LFloat then
      [ Bullet + "Mean: " + rd.fixed2(s.mean),
        Bullet + "Median: " + rd.fixed2(s.median),
        Bullet + "Mode: " + rd.modeArray(s.mode),
        Bullet + "Std Dev: " + rd.stdDev(cells),
        Bullet + "Min: " + rd.scalar(s.min),
        Bullet + "Max: " + rd.scalar(s.max) ]
    else if f.typeLabel == LStr then [Bullet + "Mode: " + rd.modeArray(f.mode)]
    else []
  }

  /** One line of the value-count listing. */
  function TopLine(rd: Renderer, e: Entry): string {
    "     - " + rd.repr(e.value) + ": " + NatToString(e.count) + " times"
  }

  /** The listing of value counts, one line per entry in order. */
  function TopLines(rd: Renderer, top: seq<Entry>): (r: seq<string>)
    ensures |r| == |top|
    ensures forall i :: 0 <= i < |top| ==> r[i] == TopLine(rd, top[i])
  {
    seq(|top|, i requires 0 <= i < |top| => TopLine(rd, top[i]))
  }

  /** The name, the dtype label and the three counts of a column. */
  function HeadLines(f: Facts): (r: seq<string>)
    ensures |r| == 5
  {
    [ "\nColumn: " + f.name,
      Bullet + "Inferred Type: " + LabelName(f.typeLabel),
      CountLine("Null Values", f.nulls),
      CountLine("Non-Null Values", f.nonNulls),
      CountLine("Unique Values", f.unique) ]
  }

  /** The block of lines for one column: the head, the statistics, the
      "Top 5 Values:" line and the listing. */
  function BlockLines(rd: Renderer, f: Facts, cells: seq<Cell>): (r: seq<string>)
    ensures var s := StatLineCount(f.typeLabel);
      && |r| == 6 + s + |f.top|
      && r[..5] == HeadLines(f)
      && r[5 + s] == Bullet + "Top 5 Values:"
      && r[6 + s..] == TopLines(rd, f.top)
  {
    var head := HeadLines(f);
    var stats := StatLines(rd, f, cells);
    var top := TopLines(rd, f.top);
    Layout(head, stats, Bullet + "Top 5 Values:", top);
    head + (stats + ([Bullet + "Top 5 Values:"] + top))
  }

  /** Where the parts of `a + (b + ([x] + c))` sit. */
  lemma Layout<T>(a: seq<T>, b: seq<T>, x: T, c: seq<T>)
    ensures var r := a + (b + ([x] + c));
      && |r| == |a| + |b| + 1 + |c|
      && r[..|a|] == a && r[|a| + |b|] == x && r[|a| + |b| + 1..] == c
  {
    var r := a + (b + ([x] + c));
    assert r[..|a|] == a;
    assert r[|a| + |b| + 1..] == c;
  }

  /** The first two lines of a block name the column and its label. */
  lemma BlockTitle(rd: Renderer, f: Facts, cells: seq<Cell>)
    ensures var r := BlockLines(rd, f, cells);
      && r[0] == "\nColumn: " + f.name
      && r[1] == Bullet + "Inferred Type: " + LabelName(f.typeLabel)
  {
    var r := BlockLines(rd, f, cells);
    var head := HeadLines(f);
    assert r[0] == head[0] && r[1] == head[1] by {
      assert r[..5] == head;
    }
  }

  /** Line `6 + s + i` of a block is the listing's `i`-th line. */
  lemma BlockTop(rd: Renderer, f: Facts, cells: seq<Cell>, i: nat)
    requires i < |f.top|
    ensures BlockLines(rd, f, cells)[6 + StatLineCount(f.typeLabel) + i] == TopLine(rd, f.top[i])
  {
    var s := StatLineCount(f.typeLabel);
    var r := BlockLines(rd, f, cells);
    var top := TopLines(rd, f.top);
    assert r[6 + s..] == top;
    assert r[6 + s + i] == top[i];
  }

  /** The block of lines for one column of the table. */
  function ColumnLines(rd: Renderer, c: Column): seq<string> {
    BlockLines(rd, FactsOf(c), c.cells)
  }

  /** A column's block has six fixed lines, its statistic lines and one
      line per distinct value up to five. */
  lemma ColumnLinesLength(rd: Renderer, c: Column)
    ensures |ColumnLines(rd, c)| == 6 + StatLineCount(InferDtype(c.dtype)) + Min(5, |Distinct(c.cells)|)
  {
  }

  /** The three count lines of a block read back as the null, non-null and
      distinct counts: the first two add up to the row count and the last
      is at most the second. */
  lemma ColumnCountsReadBack(rd: Renderer, c: Column)
    ensures var r := ColumnLines(rd, c);
      && ReadCount("Null Values", r[2]) == Some(Nulls(c.cells))
      && ReadCount("Non-Null Values", r[3]) == Some(NonNulls(c.cells))
      && ReadCount("Unique Values", r[4]) == Some(Unique(c.cells))
      && ReadCount("Null Values", r[2]).value + ReadCount("Non-Null Values", r[3]).value == |c.cells|
      && ReadCount("Unique Values", r[4]).value <= ReadCount("Non-Null Values", r[3]).value
  {
    var f := FactsOf(c);
    var r := ColumnLines(rd, c);
    var head := HeadLines(f);
    assert r[2] == head[2] && r[3] == head[3] && r[4] == head[4] by {
      assert r[..5] == head;
    }
    ReadCountLine("Null Values", f.nulls);
    ReadCountLine("Non-Null Values", f.nonNulls);
    ReadCountLine("Unique Values", f.unique);
  }

  /** The block opens with the column's name and its dtype label. */
  lemma ColumnTitleLines(rd: Renderer, c: Column)
    ensures var r := ColumnLines(rd, c);
      && r[0] == "\nColumn: " + c.name
      && r[1] == Bullet + "Inferred Type: " + LabelName(InferDtype(c.dtype))
  {
    BlockTitle(rd, FactsOf(c), c.cells);
  }

  /** The listing after the "Top 5 Values:" line is the most frequent
      values, most frequent first, each with its count in the column. */
  lemma ColumnTopLines(rd: Renderer, c: Column, i: nat)
    requires i < Min(5, |Distinct(c.cells)|)
    ensures var s := StatLineCount(InferDtype(c.dtype));
      exists e: Entry :: ColumnLines(rd, c)[6 + s + i] == TopLine(rd, e) && e.value in c.cells && e.count == Count(c.cells, e.value)
  {
    var f := FactsOf(c);
    BlockTop(rd, f, c.cells, i);
    assert f.top[i].value in c.cells && f.top[i].count == Count(c.cells, f.top[i].value);
  }

  // ---------------------------------------------------------------------
  // The whole report
  // ---------------------------------------------------------------------

  function Flatten(xss: seq<seq<string>>): seq<string> {
    if |xss| == 0 then [] else xss[0] + Flatten(xss[1..])
  }

  /** Flattening distributes over concatenation. */
  lemma {:induction false} FlattenAppend(a: seq<seq<string>>, b: seq<seq<string>>)
    ensures Flatten(a + b) == Flatten(a) + Flatten(b)
  {
    if |a| > 0 {
      assert (a + b)[0] == a[0];
      assert (a + b)[1..] == a[1..] + b;
      FlattenAppend(a[1..], b);
    } else {
      assert a + b == b;
    }
  }

  /** The index at which block `k` starts once the blocks are flattened. */
  function Offset(xss: seq<seq<string>>, k: nat): nat
    requires k <= |xss|
  {
    |Flatten(xss[..k])|
  }

  /** Block `k` sits unchanged at its offset in the flattened lines. */
  lemma FlattenBlock(xss: seq<seq<string>>, k: nat)
    requires k < |xss|
    ensures Offset(xss, k) + |xss[k]| <= |Flatten(xss)|
    ensures Flatten(xss)[Offset(xss, k)..Offset(xss, k) + |xss[k]|] == xss[k]
  {
    assert xss == xss[..k] + xss[k..];
    FlattenAppend(xss[..k], xss[k..]);
    assert xss[k..][1..] == xss[k + 1..];
  }

  /** `block` occurs in `lines` from index `start` on. */
  predicate BlockAt(lines: seq<string>, block: seq<string>, start: nat) {
    start + |block| <= |lines| && lines[start..start + |block|] == block
  }

  /** Behind a prefix `h`, block `k` starts at the prefix's length plus its
      offset. */
  lemma BlockAfterPrefix(all: seq<string>, h: seq<string>, xss: seq<seq<string>>, k: nat, start: nat)
    requires all == h + Flatten(xss)
    requires k < |xss| && start == |h| + Offset(xss, k)
    ensures start + |xss[k]| <= |all|
    ensures all[start..start + |xss[k]|] == xss[k]
  {
    FlattenBlock(xss, k);
    var o := Offset(xss, k);
    assert all[start..start + |xss[k]|] == Flatten(xss)[o..o + |xss[k]|];
  }

  function Header(t: Table): seq<string> {
    ["\nTotal Rows: " + NatToString(t.rows), "Total Columns: " + NatToString(|t.columns|) + "\n"]
  }

  function Blocks(rd: Renderer, t: Table): (r: seq<seq<string>>)
    ensures |r| == |t.columns|
    ensures forall k :: 0 <= k < |t.columns| ==> r[k] == ColumnLines(rd, t.columns[k])
  {
    seq(|t.columns|, k requires 0 <= k < |t.columns| => ColumnLines(rd, t.columns[k]))
  }

  /** The report's lines: the header, then each column's block in order. */
  function Lines(rd: Renderer, t: Table): seq<string> {
    Header(t) + Flatten(Blocks(rd, t))
  }

  /** `initial_data_check(df)`: the lines joined with line feeds. */
  function Report(rd: Renderer, t: Table): (r: string)
    ensures |Header(t)[0]| <= |r| && r[..|Header(t)[0]|] == "\nTotal Rows: " + NatToString(t.rows)
  {
    Join(Lines(rd, t), "\n")
  }

  /** Every block has at least its six fixed lines, so the blocks of a
      table with columns flatten to a non-empty list. */
  lemma BlocksNonEmpty(rd: Renderer, t: Table)
    requires |t.columns| > 0
    ensures |Flatten(Blocks(rd, t))| > 0
  {
    var b := Blocks(rd, t);
    assert |b[0]| >= 6;
  }

  /** The report is the two header lines joined by a line feed, then, when
      the table has columns, a line feed and the columns' blocks joined the
      same way. */
  lemma ReportShape(rd: Renderer, t: Table)
    ensures |t.columns| == 0 ==> Report(rd, t) == Header(t)[0] + "\n" + Header(t)[1]
    ensures |t.columns| > 0 ==>
      Report(rd, t) == Header(t)[0] + "\n" + Header(t)[1] + "\n" + Join(Flatten(Blocks(rd, t)), "\n")
  {
    var h := Header(t);
    JoinSnoc([h[0]], h[1], "\n");
    assert [h[0]] + [h[1]] == h;
    if |t.columns| > 0 {
      BlocksNonEmpty(rd, t);
      JoinAppend(h, Flatten(Blocks(rd, t)), "\n");
    } else {
      assert Flatten(Blocks(rd, t)) == [];
      assert Lines(rd, t) == h;
    }
  }

  /** Column `k`'s block occupies the lines from 2 plus the sizes of the
      blocks before it, in column order. */
  lemma ColumnBlockPosition(rd: Renderer, t: Table, k: nat)
    requires k < |t.columns|
    ensures BlockAt(Lines(rd, t), Blocks(rd, t)[k], 2 + Offset(Blocks(rd, t), k))
  {
    var b := Blocks(rd, t);
    var all := Lines(rd, t);
    var start := 2 + Offset(b, k);
    BlockAfterPrefix(all, Header(t), b, k, start);
    assert BlockAt(all, b[k], start);
  }
}
