/** A loaded table as the profilers see it: named columns of cells, each
    with the answers pandas' dtype predicates give for it. The dtype
    predicates themselves are not modelled; their answers are inputs. */
module Tables {
  import opened Cells

  /** `is_integer_dtype`, `is_float_dtype`, `is_bool_dtype`,
      `is_datetime64_any_dtype` and `is_string_dtype` of one column. */
  datatype DtypeFlags = DtypeFlags(isInteger: bool, isFloat: bool, isBool: bool, isDatetime: bool, isString: bool)

  /** The labels `infer_dtype` returns. */
  datatype DtypeLabel = LInt | LFloat | LBool | LDatetime | LStr | LUnknown

  function LabelName(l: DtypeLabel): string {
    match l
    case LInt => "int"
    case LFloat => "float"
    case LBool => "bool"
    case LDatetime => "datetime"
    case LStr => "str"
    case LUnknown => "unknown"
  }

  /** The label names are pairwise different. */
  lemma LabelNameInjective(a: DtypeLabel, b: DtypeLabel)
    requires LabelName(a) == LabelName(b)
    ensures a == b
  {
  }

  /** `infer_dtype(series)`: the first dtype predicate that holds, in the
      order int, float, bool, datetime, str; "unknown" when none does. */
  function InferDtype(f: DtypeFlags): (r: DtypeLabel)
    ensures r == LInt <==> f.isInteger
    ensures r == LFloat <==> !f.isInteger && f.isFloat
    ensures r == LBool <==> !f.isInteger && !f.isFloat && f.isBool
    ensures r == LDatetime <==> !f.isInteger && !f.isFloat && !f.isBool && f.isDatetime
    ensures r == LStr <==> !f.isInteger && !f.isFloat && !f.isBool && !f.isDatetime && f.isString
    ensures r == LUnknown <==> !f.isInteger && !f.isFloat && !f.isBool && !f.isDatetime && !f.isString
  {
    if f.isInteger then LInt
    else if f.isFloat then LFloat
    else if f.isBool then LBool
    else if f.isDatetime then LDatetime
    else if f.isString then LStr
    else LUnknown
  }

  /** The dtype tests paired with their labels, in precedence order. */
  function Precedence(f: DtypeFlags): seq<(bool, DtypeLabel)> {
    [(f.isInteger, LInt), (f.isFloat, LFloat), (f.isBool, LBool), (f.isDatetime, LDatetime), (f.isString, LStr)]
  }

  /** The label of the first pair whose test holds, or "unknown". */
  function FirstHolding(tests: seq<(bool, DtypeLabel)>): DtypeLabel {
    if |tests| == 0 then LUnknown
    else if tests[0].0 then tests[0].1
    else FirstHolding(tests[1..])
  }

  /** `infer_dtype` is a first-match scan over the precedence list. */
  lemma InferDtypeIsFirstMatch(f: DtypeFlags)
    ensures InferDtype(f) == FirstHolding(Precedence(f))
  {
    var p4: seq<(bool, DtypeLabel)> := [(f.isString, LStr)];
    var p3 := [(f.isDatetime, LDatetime)] + p4;
    var p2 := [(f.isBool, LBool)] + p3;
    var p1 := [(f.isFloat, LFloat)] + p2;
    var p0 := [(f.isInteger, LInt)] + p1;
    assert p0[1..] == p1 && p1[1..] == p2 && p2[1..] == p3 && p3[1..] == p4 && p4[1..] == [];
    assert FirstHolding(p4) == if f.isString then LStr else LUnknown;
    assert FirstHolding(p3) == if f.isDatetime then LDatetime else FirstHolding(p4);
    assert FirstHolding(p2) == if f.isBool then LBool else FirstHolding(p3);
    assert FirstHolding(p1) == if f.isFloat then LFloat else FirstHolding(p2);
    assert p0 == Precedence(f);
  }

  /** A column: its name, its dtype answers and its cells, top to bottom. */
  datatype Column = Column(name: string, dtype: DtypeFlags, cells: seq<Cell>)

  /** A table: its row count and its columns, left to right. */
  datatype Table = Table(rows: nat, columns: seq<Column>)

  /** Every column has one cell per row. */
  predicate WellFormed(t: Table) {
    forall k :: 0 <= k < |t.columns| ==> |t.columns[k].cells| == t.rows
  }

  /** Cells agree with the dtype pandas reports: an integer column holds
      only ints (it cannot hold NaN), a float column only floats or NaN, a
      bool column only bools and a datetime column only timestamps or NaT. */
  predicate DtypeConsistent(c: Column) {
    (c.dtype.isInteger ==> forall i :: 0 <= i < |c.cells| ==> c.cells[i].I?)
    && (c.dtype.isFloat ==> forall i :: 0 <= i < |c.cells| ==> c.cells[i].R? || c.cells[i] == Missing)
    && (c.dtype.isBool ==> forall i :: 0 <= i < |c.cells| ==> c.cells[i].B?)
    && (c.dtype.isDatetime ==> forall i :: 0 <= i < |c.cells| ==> c.cells[i].Ts? || c.cells[i] == Missing)
  }
}
