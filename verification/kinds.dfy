/** The kind tags `map_type` gives the present cells of a column, and the
    set of them a column carries. */
module Kinds {
  import opened Cells

  /** The names a column's Type field can list: the five runtime kinds,
      "unknown", and the two extra flags of the later profiler. */
  datatype Tag = TBool | TInt | TFloat | TStr | TDatetime | TUnknown | TStrNumeric | TNumericMixed

  predicate IsPrimary(t: Tag) { t != TStrNumeric && t != TNumericMixed }

  function TagName(t: Tag): string {
    match t
    case TBool => "bool"
    case TInt => "int"
    case TFloat => "float"
    case TStr => "str"
    case TDatetime => "datetime"
    case TUnknown => "unknown"
    case TStrNumeric => "str-numeric"
    case TNumericMixed => "numeric-mixed"
  }

  /** The tag naming a cell's exact runtime class. */
  function TagOfType(t: RuntimeType): Tag {
    match t
    case TyBool => TBool
    case TyInt => TInt
    case TyFloat => TFloat
    case TyStr => TStr
    case TyTimestamp => TDatetime
    case TyOther => TUnknown
  }

  /** `map_type(v)`: a chain of `isinstance` tests, `bool` first. Since a
      Python bool is also an instance of `int`, testing `int` first would
      tag booleans as "int". */
  function MapType(c: Cell): (t: Tag)
    requires c != Missing
    ensures IsPrimary(t)
    ensures c.B? ==> t == TBool
    ensures t == TInt ==> c.I?
  {
    if c.B? then TBool
    else if IsInstanceInt(c) then TInt
    else if c.R? then TFloat
    else if c.S? then TStr
    else if c.Ts? then TDatetime
    else TUnknown
  }

  /** The `isinstance` chain names exactly the cell's runtime class. */
  lemma MapTypeIsRuntimeClass(c: Cell)
    requires c != Missing
    ensures MapType(c) == TagOfType(TypeOf(c))
  {
  }

  /** The tag chain with `int` tested before `bool`, as a contrast. */
  function MapTypeIntFirst(c: Cell): Tag
    requires c != Missing
  {
    if IsInstanceInt(c) then TInt
    else if c.B? then TBool
    else MapType(c)
  }

  /** Testing `int` first would misreport every boolean. */
  lemma IntFirstMisreportsBool(b: bool)
    ensures MapTypeIntFirst(B(b)) == TInt
    ensures MapType(B(b)) == TBool
  {
  }

  /** `set(map_type(v) for v in col.dropna())`: the tags of the present
      cells; missing cells contribute nothing. */
  function PrimaryTags(col: seq<Cell>): (r: set<Tag>)
    ensures forall t :: t in r <==> exists i :: 0 <= i < |col| && col[i] != Missing && MapType(col[i]) == t
    ensures forall t :: t in r ==> IsPrimary(t)
    ensures r == {} <==> forall i :: 0 <= i < |col| ==> col[i] == Missing
  {
    var r := set i | 0 <= i < |col| && col[i] != Missing :: MapType(col[i]);
    assert r == {} ==> forall i :: 0 <= i < |col| ==> col[i] == Missing by {
      assert forall i :: 0 <= i < |col| && col[i] != Missing ==> MapType(col[i]) in r;
    }
    r
  }

  /** A boolean column is tagged "bool" and never "int". */
  lemma BoolColumnTags(col: seq<Cell>)
    requires exists i :: 0 <= i < |col| && col[i].B?
    requires forall i :: 0 <= i < |col| ==> col[i].B? || col[i] == Missing
    ensures PrimaryTags(col) == {TBool}
  {
    var i :| 0 <= i < |col| && col[i].B?;
    assert MapType(col[i]) == TBool;
  }

  /** The tags are the runtime classes of the present cells. */
  lemma PrimaryTagsAreTypes(col: seq<Cell>)
    ensures PrimaryTags(col) == set i | 0 <= i < |col| && col[i] != Missing :: TagOfType(TypeOf(col[i]))
  {
    forall i | 0 <= i < |col| && col[i] != Missing {
      MapTypeIsRuntimeClass(col[i]);
    }
  }
}
