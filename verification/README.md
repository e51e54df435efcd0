# AI data analyst: column profiler and intent dispatch

The repository is a family of small front-ends: command-line scripts and
Streamlit pages. Each loads a CSV or Excel table, profiles its columns,
and then answers questions about the table through a language-model
collaborator. Only two parts are deterministic, and this project models
both in Dafny.

1. **The column profiler.** There are three versions of
   `generate_column_summary` (streamlit_v2, streamlit_v3, streamlit_v6)
   and two versions of `initial_data_check`: one prints (test5), the other
   builds text (streamlit_v1). Per column they compute some or all of:
   - the runtime kinds of the present cells, checking `bool` before `int`;
   - the `str-numeric` and `numeric-mixed` flags and the mixed-type warning;
   - the dtype label;
   - the null, non-null and distinct counts, and the fill percentage;
   - Max and Min;
   - mean, median and mode;
   - the e-mail, mobile-number and year-range checks;
   - the top-K frequency table, with missing counted as its own category;
   - the export file name.
2. **Intent normalisation and dispatch.** `classify_query` strips and
   lower-cases the collaborator's reply. Each version routes that decision
   through an if/elif chain whose `else` calls `ask_question`. Around the
   chain sit the Streamlit chat state (upload, Send, history) and the
   command-line loop with its `exit` rule.

A column is a `seq<Cell>`. A cell is one of: missing, a bool, an int, an
exact real, a string, a timestamp (represented by its year), or an object
of another class. pandas' dtype predicates are inputs (`Tables.DtypeFlags`).
The collaborator is an uninterpreted function from a request to its
reply. A request is either "classify this query" or "answer it with this
handler's prompt about this table".

The modules follow the program's structure:
- **Building blocks:**
  - `Wrappers`: Option, Result and Python exceptions.
  - `Text`: ASCII strip, lower, digits and join.
  - `Cells`: cells, counts and distinct values.
  - `Tables`: columns, tables and `infer_dtype`.
  - `Frequency`: `value_counts`, `head`, `idxmax`/`idxmin` and `mode`.
  - `Numeric` and `Stats`: mean, median, min and max.
  - `Kinds`: `map_type`.
  - `Ordering`: `max()`/`min()` over Python objects.
  - `Fields`: Fill %, Max and Min.
  - `Paths`: `os.path.splitext` and the export name.
  - `Validators`: str-numeric, e-mail, mobile and year range.
- **The profilers:** `ProfileV6`, `ProfileV3`, `ProfileV2`, `CheckV5` and `ReportV1`.
- **The dispatch:** `Intent` and `Session`.

Two behaviours of the code are easy to assume otherwise:
- **Fill % on a zero-row column.** The code divides by `len(col_data)`, so
  on a zero-row column it raises ZeroDivisionError. `Fields.FillPercent`
  returns `Err(ZeroDivision)`, and the whole profiler run fails
  (`ProfileV6.GenerateFailsOnlyOnEmptyRows`).
- **Plot and update handlers.** `generate_plot` and `update_data` return
  the collaborator's reply unchanged; no code block is extracted from it.
  `Session.PlotAndUpdatePassThrough` states the pass-through.

## Model

| member | source | states |
|---|---|---|
| Kinds.MapType | streamlit_v6.py:46-52 | A present cell gets a primary tag: a bool cell is tagged "bool", and only an int cell is tagged "int". |
| Kinds.MapTypeIsRuntimeClass | streamlit_v3.py:47-53 | The `isinstance` chain names exactly the cell's runtime class. |
| Kinds.IntFirstMisreportsBool | streamlit_v6.py:46-48 | Testing `int` before `bool` would tag every boolean "int". The chain as written tags it "bool". |
| Kinds.PrimaryTags | streamlit_v6.py:54-60 | A tag is in the set iff some present cell maps to it. Missing cells add nothing, and the set is empty iff every cell is missing. |
| Kinds.BoolColumnTags | streamlit_v6.py:54-60 | A column of booleans and missing cells, with at least one boolean, carries exactly {bool}. |
| Kinds.PrimaryTagsAreTypes | streamlit_v3.py:55-61 | The tag set is the set of runtime classes of the present cells. |
| ProfileV6.Tags | streamlit_v6.py:54-68 | The primary tags are kept and no other primary tag is added. "str-numeric" is present iff some present string reads as a number. "numeric-mixed" is present iff both "int" and "float" are. |
| ProfileV6.BoolNotTaggedInt | streamlit_v6.py:46-68 | A boolean column is never tagged "int", "numeric-mixed" or "str-numeric". |
| ProfileV6.NumericTextIsMixed | streamlit_v6.py:63-74 | A text column with one numeric-looking string is tagged {str, str-numeric} and carries the warning. |
| ProfileV6.IntAndFloatIsMixed | streamlit_v6.py:67-71 | An int next to a float yields int, float and numeric-mixed, and the warning. |
| ProfileV6.OneKindNotMixed | streamlit_v6.py:70-74 | One kind and no numeric-looking text give a single tag and no warning. |
| ProfileV6.SummarizeColumn | streamlit_v6.py:70-102 | A zero-row column raises. Otherwise: the tags are `Tags(col)` and the warning is set iff there is more than one; nulls is the number of missing cells, non-nulls the length of `dropna()`, unique the size of the set of present values; Fill % is the non-null share in percent; Max and Min follow the text/order rule; top 5 is a sorted, faithful, duplicate-free frequency table. |
| ProfileV6.SummarizeColumns | streamlit_v6.py:42-104 | One summary per column, in order and under its name. The run fails iff some column has no rows. |
| ProfileV6.GenerateColumnSummary | streamlit_v6.py:42-117 | Fails iff a column has no rows. Otherwise summary k is column k's name with `SummarizeColumn` of column k, and the base name follows the upload/database rule. |
| ProfileV6.GenerateFailsOnlyOnEmptyRows | streamlit_v6.py:77 | On a well-formed table the profiler raises iff the table has columns but no rows. |
| Fields.PercentBounds | streamlit_v6.py:77 | `100 * part / whole` lies in [0, 100]. It is 100 iff part = whole, and 0 iff part = 0. |
| Fields.FillPercent | streamlit_v6.py:77 | Division by zero iff the column has no rows. Otherwise the value is the non-null share in percent; it is 100 iff there are no nulls, and 0 iff every cell is missing. |
| Fields.MaxMin | streamlit_v6.py:80-100 | For a column listing "str" first, Max (Min) is a most (least) frequent present value. Otherwise: NaN iff every cell is missing; "-" iff the present cells cannot be ordered; else a present cell no present cell exceeds (undercuts). |
| Fields.TextColumnMaxMin | streamlit_v6.py:80-100 | For a pure text column, Max and Min are values, and Max occurs at least as often as Min. |
| Fields.TextOutsideTextBranch | streamlit_v6.py:86-89 | Outside the text branch, a column holding a string gets "-" for both Max and Min. |
| Fields.OrderedBranchStringHasOtherKind | streamlit_v6.py:80-89 | When the ordered branch sees a string, some present cell of the column is not a string. |
| Fields.SummarizeEach | streamlit_v6.py:43-104 | The loop over the columns: it fails iff some column's summary raises. Otherwise entry k is column k's name with its summary, in column order. |
| Ordering.OrderExtreme | streamlit_v6.py:87 | `col.max()`/`col.min()` as the profiler reaches it: NaN iff nothing is present; "-" iff the present cells are neither all numbers nor all timestamps; otherwise a present extreme by value. |
| Ordering.MinAtMostMax | streamlit_v6.py:87-98 | When the column has a maximum it also has a minimum, and the minimum is no larger. |
| Ordering.TextIsNotOrdered | streamlit_v6.py:86-89 | In the ordered branch a string always sits next to another kind (`Fields.OrderedBranchStringHasOtherKind`), and there Max and Min are "-". |
| Ordering.NumberKey | streamlit_v6.py:87 | A number's ordering key is the value it stands for in arithmetic, so True counts as 1. |
| Ordering.PickByKey | streamlit_v6.py:87 | The chosen candidate has the extreme key among all candidates. |
| Frequency.Tally | streamlit_v6.py:101 | One entry per distinct value, missing included, each with its true count, and every value is listed. |
| Frequency.InsertSorted | streamlit_v6.py:101 | Inserting by count keeps the table in non-increasing count order. |
| Frequency.InsertPermutes | streamlit_v6.py:101 | Inserting adds the entry and loses nothing. |
| Frequency.SortByCount | streamlit_v6.py:101 | The output is a permutation of the input in non-increasing count order. |
| Frequency.ValueCounts | streamlit_v6.py:101 | `value_counts(dropna=False)`: every value once, with its true count, most frequent first. |
| Frequency.HeadIsTop | streamlit_v6.py:101 | Cutting a complete sorted table drops only values that appear later in the table. |
| Frequency.TopValues | streamlit_v6.py:101 | `head(k)` has min(k, distinct values) entries, sorted, faithful and duplicate-free. Every value left out is no more frequent than any value kept. |
| Frequency.Pick | streamlit_v6.py:83 | The chosen candidate has the highest (lowest) frequency among the candidates. |
| Frequency.Extremal | streamlit_v6.py:83-94 | `idxmax`/`idxmin` over present values: raises iff every cell is missing; otherwise a present value of extreme frequency. |
| Frequency.MostAtLeastLeast | streamlit_v6.py:83-94 | The most frequent value occurs at least as often as the least frequent one. |
| Frequency.Mode | streamlit_v2.py:55 | `mode().values[:1]` has at most one element. It is empty iff every cell is missing; otherwise it holds a most frequent present value. |
| Paths.SplitExtShape | streamlit_v6.py:112 | `splitext` splits a path into stem + extension. The extension is empty or starts with '.'. |
| Paths.SplitExtFindsExtension | streamlit_v6.py:112 | The extension is found iff the last path component has a dot after its leading dots. It then starts at the last such dot. |
| Paths.SplitExtCsv | streamlit_v6.py:112 | "sales.csv" splits into "sales" and ".csv". |
| Paths.SplitExtLastDotOnly | streamlit_v6.py:112 | Only the last dot starts the extension ("archive.tar.gz" gives ".gz"). |
| Paths.SplitExtHiddenFile | streamlit_v6.py:112 | A leading dot does not start an extension (".bashrc"). |
| Paths.SplitExtDottedDirectory | streamlit_v6.py:112 | A dot in a directory name does not start an extension. |
| Paths.ExportNameRoundTrip | streamlit_v6.py:115 | The base can be read back from the export name. |
| Paths.ExportNameInjective | streamlit_v6.py:115 | Different bases give different export file names. |
| Paths.BaseFilename | streamlit_v6.py:110-114 | With an upload the base is the file's stem. Otherwise it is "db_table" when both names are present and non-empty, else "summary". |
| Paths.BaseFilenameUploadOnly | streamlit_v3.py:93 | The upload's stem, or "summary" without an upload. |
| Paths.BaseFilenameExtendsUploadOnly | streamlit_v6.py:110-114 | The later rule agrees with the earlier one except for the database fallback. |
| Paths.StemIsPrefix | streamlit_v6.py:112 | The stem is a prefix of the name. With an extension it stops just before a '.'. |
| Paths.SplitExt | streamlit_v6.py:112 | `os.path.splitext`: the stem followed by the extension is the path. |
| Paths.ExportName | streamlit_v6.py:115 | The export name is the base followed by "_summary.csv". |
| ProfileV3.SummarizeColumn | streamlit_v3.py:55-85 | A zero-row column raises. Otherwise: the tags are exactly the runtime classes present; the warning is set iff there is more than one; nulls, non-nulls and unique are the missing cells, the `dropna()` length and the distinct present values; Fill % is the non-null share; Max follows the text/order rule; top 5 is sorted and faithful. |
| ProfileV3.NoExtraFlags | streamlit_v3.py:55-61 | The earlier profiler never reports "str-numeric" or "numeric-mixed". |
| ProfileV3.TextMaxIsMostFrequent | streamlit_v3.py:73-78 | For a text column, Max is a most frequent present value. |
| ProfileV3.SummarizeColumns | streamlit_v3.py:43-87 | One summary per column, in order. Fails iff a column has no rows. |
| ProfileV3.GenerateColumnSummary | streamlit_v3.py:43-96 | Fails iff a column has no rows. Otherwise summary k is column k's name with `SummarizeColumn` of column k. The base name is the upload's stem, and the export is "summary_summary.csv" without an upload. |
| ProfileV3.NoUploadExportName | streamlit_v3.py:92-93 | Without an upload the export file is "summary_summary.csv". |
| Tables.InferDtype | streamlit_v2.py:28-40 | Exactly one label, by precedence int, float, bool, datetime, str; "unknown" iff no predicate holds. |
| Tables.InferDtypeIsFirstMatch | streamlit_v2.py:28-40 | `infer_dtype` is the first match over the precedence list. |
| Tables.LabelNameInjective | streamlit_v2.py:28-40 | The six label names are pairwise different. |
| Cells.NonMissing | streamlit_v2.py:48-49 | `dropna()` keeps exactly the present cells, each as often as it occurs. The kept cells plus the nulls make up the column. Order is stated by `Cells.NonMissingAppend`. |
| Cells.NonMissingAppend | streamlit_v2.py:48-49 | `dropna()` keeps column order: the present cells of a concatenation are those of each part, one after the other. |
| Cells.NonMissingSingle | streamlit_v2.py:48-49 | A single cell survives `dropna()` iff it is present. |
| Cells.NullsPlusNonNulls | streamlit_v2.py:48-49 | Nulls + non-nulls = rows. |
| Cells.NonNullsZero | streamlit_v6.py:76-77 | There are no non-null cells iff every cell is missing. |
| Cells.Distinct | streamlit_v6.py:101 | The distinct values, each once, and no others. |
| Cells.NoDupsCardinality | streamlit_v2.py:50 | A duplicate-free sequence has as many elements as its set. |
| Cells.Unique | streamlit_v2.py:50 | `nunique(dropna=True)` counts the set of present values and is at most the non-null count. |
| Cells.CountIf | test5.py:244 | The count equals the number of positions whose cell passes the test. So it is at most the row count, and 0 iff no cell passes. |
| Cells.PassingSnoc | test5.py:244 | One more cell adds its position to the passing positions iff it passes. |
| Cells.CountIfPartition | test5.py:243-244 | Three mutually exclusive, exhaustive tests count up to the row count. |
| Cells.CountIfMissing | test5.py:243 | Counting missing cells gives the null count. |
| Cells.CountIfPresent | test5.py:251-252 | A test that rejects missing cells counts the same before and after `dropna()`. |
| Numeric.Numbers | streamlit_v2.py:53-58 | One number per numeric cell, so the length is the number of numeric cells and repeated values keep their multiplicity. Every number comes from a cell of the column. Order is stated by `Numeric.NumbersAppend`. |
| Numeric.NumbersAppend | streamlit_v2.py:53-58 | The numbers keep column order: those of a concatenation are those of each part, one after the other. |
| Numeric.NumbersSingle | streamlit_v2.py:53-58 | A single cell contributes its number if it has one, and nothing otherwise. |
| Numeric.MinOf | streamlit_v2.py:57 | The minimum is one of the values and bounds all of them from below. |
| Numeric.MaxOf | streamlit_v2.py:58 | The maximum is one of the values and bounds all of them from above. |
| Numeric.SumBounds | streamlit_v2.py:53 | A sum of n values lies between n times any lower bound and n times any upper bound. |
| Numeric.Mean | streamlit_v2.py:53 | The mean exists iff there is a value. Then mean × n = the sum, and the mean lies between min and max. |
| Numeric.SortReals | streamlit_v2.py:54 | The values in ascending order, as a permutation. |
| Numeric.Median | streamlit_v2.py:54 | The median exists iff there is a value. For an odd count it is the middle sorted value, one of the values. For an even count it is the mean of the two middle sorted values. It lies between min and max. |
| Numeric.MedianSplits | streamlit_v2.py:54 | At least half of the sorted values lie at or below the median, and at least half at or above it. |
| Stats.NumericStatsOf | streamlit_v2.py:52-58 | The mean and median are `Mean` and `Median` of the column's numbers; min and max are the smallest and largest of them. All four exist iff a number is present, and then min ≤ median ≤ max and min ≤ mean ≤ max, with min and max taken from the column. The mode is a most frequent present value. |
| Stats.NumbersComplete | streamlit_v2.py:53-58 | Every numeric cell contributes its value to the statistics. |
| ProfileV2.SummarizeColumn | streamlit_v2.py:46-63 | Nulls, non-nulls and unique are the missing cells, the `dropna()` length and the distinct present values. Statistics iff the label is int or float, and then they are `NumericStatsOf` the column. Mode iff the label is str, a most frequent present value. Top 5 is sorted and faithful. |
| ProfileV2.OtherLabelsNoStats | streamlit_v2.py:52-60 | Bool, datetime and unknown columns get no statistics. |
| ProfileV2.NumericColumnStats | streamlit_v2.py:52-58 | A consistent numeric column with a present value has min ≤ median ≤ max and min ≤ mean ≤ max, with min and max from the column. |
| ProfileV2.GenerateColumnSummary | streamlit_v2.py:42-66 | Entry k is column k's name with `SummarizeColumn` of column k, labelled by `infer_dtype`. |
| Validators.StrNumericIffPlainDecimal | streamlit_v6.py:63 | `v.replace('.', '', 1).isdigit()` holds iff v is digits with at most one '.' and at least one digit. |
| Validators.DigitsAroundDot | streamlit_v6.py:63 | A numeric-looking string with a dot has only digits on both sides of its first dot. |
| Validators.DotBetweenDigits | streamlit_v6.py:63 | Digits around a single dot read as numeric. |
| Validators.StrNumericAccepts | streamlit_v6.py:63 | "24", "3.5" and ".5" qualify. |
| Validators.StrNumericRejects | streamlit_v6.py:63 | "-3", "1.2.3", "." and "" do not qualify. |
| Validators.EmailLikeIffPattern | test5.py:216 | Splitting at the first '@' and the last '.' accepts exactly the strings the e-mail pattern fully matches. |
| Validators.ScanFindsSplit | test5.py:216 | Any split that fits the pattern is at the first '@' and the last '.'. |
| Validators.EmailLikeOneAt | test5.py:216 | An e-mail-like value has exactly one '@'. |
| Validators.EmailAccepts | test5.py:216 | "a.b@ex.com" is e-mail-like. |
| Validators.EmailRejectsLeadingHyphen | test5.py:216 | A local part opening with '-' fails the leading word boundary. |
| Validators.EmailRejectsShortTld | test5.py:216 | A one-letter top-level domain is rejected. |
| Validators.EmailRejectsEmptyDomain | test5.py:216 | An empty domain before the dot is rejected. |
| Validators.MobileLikeIffPattern | test5.py:217 | Mobile-like iff: an optional '+', then a digit 1-9, then 9 to 14 digits, then the end. |
| Validators.MobileDigitCount | test5.py:217 | A mobile-like value is 10 to 15 digits, or '+' followed by 10 to 15 digits, and nothing else. |
| Validators.MobileExamples | test5.py:217 | "+14155550123" and "9876543210" qualify. A leading 0, nine digits and a dash do not. |
| Validators.YearCountsPartition | test5.py:244 | Out-of-range, in-range and missing timestamps add up to the row count. A missing timestamp is never out of range. |
| Validators.CellText | test5.py:250-252 | Only strings, ints and bools render to a candidate text. A string renders as itself, and a non-negative int as digits that parse back to it. |
| CheckV5.PresentTypes | test5.py:224-225 | The set is exactly the runtime classes of the present cells: every present class is listed, and every listed class has a present cell. It is empty iff every cell is missing. |
| CheckV5.TwoClassesMixed | test5.py:224-226 | Two present cells of different classes set the mixed-types flag. |
| CheckV5.MixedHasTwoClasses | test5.py:224-226 | The flag implies two present cells of different classes. |
| CheckV5.OneClassNotMixed | test5.py:224-226 | Cells of one class never set the flag. |
| CheckV5.ConsistentColumnNotMixed | test5.py:224-228 | A column consistent with an int, float, bool or datetime dtype never sets the flag. |
| CheckV5.StringNextToIntIsMixed | test5.py:224-226 | A string next to an int sets the flag. |
| CheckV5.DateCheckOf | test5.py:242-244 | The invalid count is the number of cells that are not timestamps. The out-of-range count is the number of timestamps whose year lies outside 1900..2100. |
| CheckV5.DateCountsPartition | test5.py:242-244 | On timestamps and missing cells: invalid = nulls, and invalid + out-of-range + in-range = rows. |
| CheckV5.SameCount | test5.py:243 | Tests that agree on every cell count the same. |
| CheckV5.TextCheckOf | test5.py:251-252 | The e-mail (mobile) count is the number of cells that are e-mail-like (mobile-like). Each count is at most the non-null count, and is 0 iff no cell matches. |
| CheckV5.TextFindingsShown | test5.py:253-256 | Each line is printed iff its count is positive. |
| CheckV5.TextLinesIff | test5.py:250-256 | The e-mail (mobile) line appears iff some value is e-mail-like (mobile-like). |
| CheckV5.CheckColumn | test5.py:219-275 | The classes are `PresentTypes` and the flag is set iff there is more than one. Nulls, non-nulls and unique are the missing cells, the `dropna()` length and the distinct present values. The date checks are `DateCheckOf` iff datetime, the text checks `TextCheckOf` iff str, the statistics `NumericStatsOf` iff int/float, the mode `Mode` iff str/bool. Top 10 is sorted, faithful and duplicate-free. |
| CheckV5.InitialDataCheck | test5.py:196-277 | The row and column counts, then entry k is `CheckColumn` of column k. |
| CheckV5.ConsistentTableChecks | test5.py:224-248 | On a well-formed, consistent table: a datetime column's invalid count is its null count, its year classes cover the rows, and no non-text column sets the flag. |
| ReportV1.ReadCountLine | streamlit_v1.py:57-59 | Every count line reads back as the count it reports. |
| ReportV1.FactsOf | streamlit_v1.py:50-53 | The label is `infer_dtype`'s. Nulls, non-nulls and unique are the missing cells, the `dropna()` length and the distinct present values. The statistics are `NumericStatsOf` the column, and the mode is at most one most frequent present value. Top 5 is faithful and sorted. |
| ReportV1.StatLines | streamlit_v1.py:61-71 | For int/float, six lines in order: Mean, Median, Mode, Std Dev, Min and Max, each rendering the matching statistic. For str, one Mode line rendering the mode. None otherwise. |
| ReportV1.TopLines | streamlit_v1.py:75-76 | One listing line per entry, in order. |
| ReportV1.HeadLines | streamlit_v1.py:55-59 | Five head lines: column, type and three counts. |
| ReportV1.BlockLines | streamlit_v1.py:55-76 | A block is the five head lines, then the statistic lines, then "Top 5 Values:", then the listing. |
| ReportV1.Layout | streamlit_v1.py:55-76 | Where each part of a concatenated block sits. |
| ReportV1.BlockTitle | streamlit_v1.py:55-56 | A block opens with the name line and the type line. |
| ReportV1.BlockTop | streamlit_v1.py:73-76 | Line 6 + s + i of a block is the i-th listing line. |
| ReportV1.ColumnLinesLength | streamlit_v1.py:55-76 | A block has 6 + statistic lines + min(5, distinct values) lines. |
| ReportV1.ColumnCountsReadBack | streamlit_v1.py:57-59 | The three count lines read back as the column's null, non-null and distinct counts. |
| ReportV1.ColumnTitleLines | streamlit_v1.py:55-56 | A column's block names the column and its dtype label. |
| ReportV1.ColumnTopLines | streamlit_v1.py:73-76 | Each listing line shows a value of the column with its true count. |
| ReportV1.FlattenAppend | streamlit_v1.py:48-76 | Flattening distributes over concatenation. |
| ReportV1.FlattenBlock | streamlit_v1.py:48-76 | Each block sits unchanged at its offset in the flattened lines. |
| ReportV1.BlockAfterPrefix | streamlit_v1.py:45-76 | Behind the header, block k starts at the header length plus its offset. |
| ReportV1.Blocks | streamlit_v1.py:48-76 | One block per column, in table order. |
| ReportV1.Report | streamlit_v1.py:45-78 | The text starts with the "Total Rows" line. Its whole shape is stated by `ReportV1.ReportShape`. |
| ReportV1.ColumnBlockPosition | streamlit_v1.py:45-78 | Column k's block follows the two header lines and the blocks of the columns before it. |
| ReportV1.BlocksNonEmpty | streamlit_v1.py:48-76 | A table with columns has at least one block line. |
| ReportV1.ReportShape | streamlit_v1.py:45-78 | The report is the two header lines joined by a line feed. With columns, a line feed and the blocks' lines joined the same way follow. |
| Text.SkipSpace | req_functions.py:175 | Skips exactly the leading whitespace. |
| Text.SkipSpaceBack | req_functions.py:175 | Skips exactly the trailing whitespace. |
| Text.Strip | req_functions.py:175 | `strip()` leaves no edge whitespace and never lengthens. |
| Text.StripEmptyIff | streamlit_v2.py:137 | `s.strip() == ""` iff s is all whitespace. |
| Text.StripFixed | req_functions.py:175 | A string without edge whitespace is its own strip. |
| Text.LowerChar | req_functions.py:175 | An upper-case letter becomes the lower-case letter 32 code points above it. Every other character is kept. |
| Text.Lower | req_functions.py:175 | `lower()` keeps the length. Each upper-case letter becomes the letter 32 code points above it, and every other character is unchanged. |
| Text.LowerFixed | req_functions.py:175 | A string without upper-case letters is its own lower-case. |
| Text.IndexOf | streamlit_v6.py:63 | The first occurrence of a character, or the length when there is none. |
| Text.DeleteFirst | streamlit_v6.py:63 | `replace(c, '', 1)` removes exactly the first c, and nothing when there is none. |
| Text.NatToString | test5.py:235-237 | A count renders as a non-empty digit string without a leading zero. |
| Text.IntToString | test5.py:251-252 | `str(i)` is non-empty and starts with '-' iff i is negative. The digits after any '-' parse back to \|i\|. |
| Text.ParseNatToString | test5.py:235-237 | A rendered count parses back to itself. |
| Text.NatToStringInjective | test5.py:235-237 | Different counts render differently. |
| Text.Join | streamlit_v1.py:78 | The joined text has the parts' lengths plus one separator between each pair. |
| Text.JoinSnoc | streamlit_v1.py:78 | Joining one more line appends the separator and the line. |
| Text.JoinAppend | streamlit_v1.py:78 | Joining two runs of lines is joining each and putting the separator between them. |
| Intent.Normalize | req_functions.py:175 | The decision has no edge whitespace and no upper-case letter. It is empty iff the reply is all whitespace. `Intent.NormalizeCore` states that it is the reply's core, lower-cased. |
| Intent.NormalizeCore | req_functions.py:175 | The decision is the reply between its first and last non-space characters, lower-cased. |
| Intent.NormalIffFixed | req_functions.py:175 | Normalised strings are exactly the fixed points of normalisation. |
| Intent.NormalizeIdempotent | req_functions.py:175 | Normalising twice is normalising once. |
| Intent.TokensAreFixed | req_functions.py:166-175 | graph, insight, quality_check, update_data and text normalise to themselves. |
| Intent.ShoutedReplyNormalizes | test5.py:186 | "GRAPH\n" normalises to "graph". |
| Intent.PaddedReplyNormalizes | v1/test4.py:158 | "  Insight " normalises to "insight". |
| Intent.Tokens | test5.py:293-299 | The tokens of a chain, in order. |
| Intent.RouteFallback | test5.py:301-302 | A decision equal to no token reaches `ask_question`. |
| Intent.RouteFirstMatch | test5.py:293-300 | The first equal token selects its handler. |
| Intent.RouteSound | test5.py:292-302 | Every decision reaches `ask_question` or the handler of a token equal to it. |
| Intent.FiveWayRouting | test5.py:292-302 | Each of the four tokens reaches its own handler, iff the decision equals it. Everything else reaches `ask_question`. |
| Intent.FourWayRouting | v1/test4.py:174-182 | graph, insight and quality_check reach their handlers. update_data never reaches its handler. Everything else is a question. |
| Intent.ThreeWayRouting | v1/test3.py:135-141 | graph and insight reach their handlers; everything else is a question. |
| Intent.TwoWayRouting | test2.py:63-69 | "graph" is plotted; everything else is a question. |
| Intent.UnknownTokensFallBack | v1/test4.py:181-182 | Tokens an older chain lacks, "" and "banana" fall back to `ask_question`. |
| Intent.ExtendedChainAgrees | streamlit_v3.py:172-185 | Adding branches to a chain never reroutes a decision the older chain handled. |
| Intent.Classify | req_functions.py:175 | `classify_query` returns a normalised decision, empty iff the reply is all whitespace. `Intent.ClassifyCore` states that it is the reply's core, lower-cased. |
| Intent.ClassifyCore | req_functions.py:175 | The decision is the core of the collaborator's reply, lower-cased. |
| Intent.ClassifyPassesThrough | req_functions.py:175-176 | A normalised reply is returned as it is. No token is mapped to another. |
| Intent.ShoutedGraphPlots | test5.py:186-294 | A "GRAPH\n" reply reaches the plot handler in every version. |
| Session.Decision | req_functions.py:165-176 | The decision is normalised, and empty iff the reply to the classifier request is all whitespace. `Session.DecisionCore` states that it is that reply's core, lower-cased. |
| Session.DecisionCore | req_functions.py:165-176 | The decision is the core of the reply to the classifier request, lower-cased. |
| Session.Respond | test5.py:292-302 | The answer is the collaborator's reply to some handler's prompt for this table and query. That handler is `ask_question` or one whose token in the chain equals the decision. |
| Session.PlotAndUpdatePassThrough | req_functions.py:16-38 | With the five-way chain, graph and update_data get the collaborator's reply to that handler's prompt unchanged. Any other decision gets the question reply. |
| Session.TwoWayPlotIsConstant | test2.py:47-48 | In the two-way version every "graph" decision gets the same apology, whatever the table, query or collaborator. |
| Session.TwoWayOtherwiseAsks | test2.py:67-69 | Every other decision gets the question prompt's reply. |
| Session.RespondTwoWay | test2.py:47-69 | A "graph" decision gets the fixed apology. Every other decision gets the question prompt's reply. |
| Session.Load | streamlit_v2.py:91-103 | A successful upload replaces the table and empties the history. A failed read changes nothing. |
| Session.Send | streamlit_v2.py:137-152 | The table is never changed. Blank input, or input before any table is loaded, changes nothing. Otherwise exactly one (input, answer) pair is appended and the earlier history is kept. |
| Session.BlankInputIgnored | streamlit_v2.py:137 | "", spaces and tab/line-feed inputs leave the state unchanged. |
| Session.SendAll | streamlit_v2.py:137-152 | A run of sends keeps the table and the earlier history. Without a table it changes nothing. |
| Session.SendAllHistory | streamlit_v2.py:137-152 | A run of sends keeps the table and the earlier history, and adds one entry per non-blank input. |
| Session.NoTableNoHistory | streamlit_v2.py:108 | Before a table is loaded, sends change nothing. |
| Session.HistoryAfterUpload | streamlit_v2.py:98-99 | After an upload the history holds exactly one entry per non-blank input sent since. |
| Session.UnpackFirst | streamlit_v6.py:239 | Unpacking a string into two names succeeds iff it has two characters, and keeps the first one. Otherwise it raises. |
| Session.SendV6AsWritten | streamlit_v6.py:235-248 | As written: blank input, or no table, changes nothing. For a graph or update_data decision it raises iff the handler's reply does not have exactly two characters; otherwise it appends the input with the reply's first character. Any other decision appends the input with the reply whole. The table is never changed. |
| Session.V6PlotReplyRaises | streamlit_v6.py:238-239 | As written, a three-character plot reply raises instead of being recorded. |
| Session.V6UpdateReplyTruncated | streamlit_v6.py:244-245 | As written, a two-character update reply is recorded as its first character. The corrected Send records it whole. |
| Session.V6AgreesOffPlotAndUpdate | streamlit_v6.py:240-247 | On the other branches, the code as written and the corrected Send agree. |
| Session.IsExitIff | test5.py:289 | The loop ends iff the input is a four-character spelling of "exit" in any case. Nothing is trimmed. |
| Session.ExitExamples | test2.py:60 | "exit", "EXIT" and "Exit" quit; " exit", "exit\n", "quit" and "" do not. |
| Session.Transcript | test5.py:287-303 | The loop answers questions in order, each with its reply, and none of them is an exit. It stops at the first exit; running out of questions also ends it. |
| Session.TranscriptStopsAtExit | v1/test3.py:130-142 | The loop answers exactly the questions before the first `exit`, in order. |
| Session.TranscriptWithoutExit | v1/test4.py:169-183 | Without an `exit`, every question is answered, in order. |
| Session.CliAnswersBlankAndPaddedExit | test5.py:287-303 | Unlike Send, the loop answers a blank question, and is not stopped by " exit". |

## Left out

- The collaborator's transport, prompt wording and model options are not modelled. `get_response` is an uninterpreted function of the request, and the content of its replies is opaque.
- File and database I/O is not modelled: `read_csv`/`read_excel`, the SQL loading, `to_csv`, the download link and `load_csv`'s exit. Only the export file's name is modelled.
- Streamlit widgets, page layout and rerun semantics are not modelled. An upload is one `Session.Load` step, and pressing Send is one `Session.Send` step.
- pandas' dtype detection is not modelled. The five `is_*_dtype` answers are inputs.
- Floating point is not modelled. Values are exact reals, and `round(..., 2)` of Fill % and the `:.2f` formatting are not modelled.
- Fields.FillPercent: states the exact ratio, without rounding to two decimals.
- Stats.NumericStatsOf: does not compute the standard deviation (a square root).
- ReportV1.StatLines: the standard deviation and the numeric renderings come from a `Renderer` parameter, so their text is not modelled.
- Frequency.TopValues: the order among equally frequent values is not specified; pandas' tie order is an implementation detail.
- Frequency.Mode: names a most frequent value, not which of several tied values pandas returns.
- Cells.Unique: counts distinct cells by the model's equality. pandas' cross-kind equality (1 == 1.0 == True) is not modelled.
- Frequency.ValueCounts: groups cells by the model's equality, so 1, 1.0 and True are three values, not one as in pandas.
- Frequency.TopValues: inherits the grouping of `Frequency.ValueCounts`; cross-kind equal values are not merged.
- Frequency.Mode: counts by the model's equality; cross-kind equal values are not merged.
- Frequency.Extremal: counts by the model's equality; cross-kind equal values are not merged.
- Fields.MaxMin: the text branch counts by the model's equality; cross-kind equal values are not merged.
- Ordering.OrderExtreme: for a column whose present cells are all strings, pandas would return the greatest (least) string; the model answers "-". The profilers reach it with a string only next to another kind (`Fields.OrderedBranchStringHasOtherKind`), where Python's comparison raises. An object of another class (`Other`) carries no value in the model, so a column holding one is answered "-" even when its objects compare with each other, as `datetime.time`, `datetime.date` or `Decimal` values do; pandas would return their greatest (least) object.
- Every object of a class other than bool, int, float, str or Timestamp is represented by one `Other` cell, so all such objects count as one value.
- Fields.MaxMin: the order in which a Python set lists its tags depends on the hash seed. So when a column's tags hold "str" and another kind, whether "str" comes first is a parameter (`strFirst`).
- ProfileV6.SummarizeColumn: records the tag set and the warning flag, not the text of the Type string (`", ".join` plus the warning sign).
- Timestamps are represented by their year, the only part the profilers inspect. Timestamps are therefore ordered by year.
- CheckV5.DateCheckOf: the `except` branch around `pd.to_datetime` is not modelled. A datetime dtype column never raises there.
- CheckV5.InitialDataCheck: the printed layout of the command-line check is not modelled; the values it prints are.
- Unicode is not modelled. `strip`, `lower`, `isdigit` and the regular expressions' character classes are ASCII only.
- Validators.CellText: `str(x)` of floats, timestamps and other objects is taken never to match the e-mail or mobile pattern.
- Session.Transcript: when the input ends without an `exit`, the program's `input()` raises an uncaught EOFError; the model ends the transcript normally with every question answered.
- The commented-out `exec` of generated code in streamlit_v6.py is not modelled.
- test1.py (a single collaborator call plus I/O) is not modelled, and neither is next_improvement.py (a docstring only).
- `describe()`, `corr()` and the quality-check prompt's content are not modelled. They only feed the collaborator's prompts.

## Findings

| source | as written | input that shows it | evidently intended | confidence | as-written member | corrected member |
|---|---|---|---|---|---|---|
| streamlit_v6.py:239, streamlit_v6.py:245 (handlers at req_functions.py:38, req_functions.py:163) | `answer, code = generate_plot(...)` and `answer, code_updation = update_data(...)` unpack the single string each handler returns. A reply of length other than 2 raises ValueError; a two-character reply is recorded as its first character. | A plot reply "plt" raises; an update reply "ok" is recorded as "o". | Record the whole reply as the answer, as streamlit_v2.py:142 and 148 do. | not executed | Session.SendV6AsWritten (Session.V6PlotReplyRaises, Session.V6UpdateReplyTruncated) | Session.Send |
