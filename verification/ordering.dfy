/** `col.max()` and `col.min()` on a column of Python objects, as far as the
    profilers depend on them: numbers (bools counting as 0 and 1) compare
    with numbers and timestamps with timestamps; a column whose present
    cells mix the two families, or mix either with text, makes the call
    raise. Text reaches this call only next to another kind. An object of
    another class carries no value here, so any column holding one is
    answered "-", even where Python could compare such objects. */
module Ordering {
  import opened Wrappers
  import opened Cells
  import opened Numeric

  /** What a Min or Max field of a summary holds: a cell, the "-" written
      when the computation raised, or NaN when every cell is missing. */
  datatype Extreme = Value(cell: Cell) | Dash | NaN

  predicate IsNumber(c: Cell) { c.B? || c.I? || c.R? }

  predicate HasKey(c: Cell) { IsNumber(c) || c.Ts? }

  /** A number's key is the value it stands for in arithmetic. */
  lemma NumberKey(c: Cell)
    requires IsNumber(c)
    ensures NumOf(c) == Some(Key(c))
  {
  }

  /** The position of a cell in its family's order; timestamps are ordered
      by their year, the only part of them modelled. */
  function Key(c: Cell): real
    requires HasKey(c)
  {
    match c
    case B(b) => if b then 1.0 else 0.0
    case I(i) => i as real
    case R(x) => x
    case Ts(y) => y as real
    case _ => 0.0
  }

  /** The present cells are all numbers or all timestamps. */
  predicate Comparable(col: seq<Cell>) {
    (forall i :: 0 <= i < |col| && col[i] != Missing ==> IsNumber(col[i]))
    || (forall i :: 0 <= i < |col| && col[i] != Missing ==> col[i].Ts?)
  }

  /** A candidate with the largest (`most`) or smallest key. */
  function PickByKey(cands: seq<Cell>, most: bool): (r: Cell)
    requires |cands| > 0
    requires forall i :: 0 <= i < |cands| ==> HasKey(cands[i])
    ensures r in cands
    ensures forall i :: 0 <= i < |cands| ==> if most then Key(cands[i]) <= Key(r) else Key(r) <= Key(cands[i])
  {
    if |cands| == 1 then cands[0]
    else
      var init := cands[..|cands| - 1];
      var last := cands[|cands| - 1];
      var best := PickByKey(init, most);
      assert forall i :: 0 <= i < |init| ==> init[i] == cands[i];
      var better := if most then Key(last) > Key(best) else Key(last) < Key(best);
      if better then last else best
  }

  /** `col.max()` (`most`) or `col.min()`, skipping missing cells: NaN when
      nothing is present, "-" when the present cells cannot be compared,
      otherwise a present cell no other present cell exceeds (undercuts). */
  function OrderExtreme(col: seq<Cell>, most: bool): (r: Extreme)
    ensures r == NaN <==> forall i :: 0 <= i < |col| ==> col[i] == Missing
    ensures r == Dash <==> (exists i :: 0 <= i < |col| && col[i] != Missing) && !Comparable(col)
    ensures r.Value? ==> r.cell in col && r.cell != Missing && HasKey(r.cell)
    ensures r.Value? ==> forall i :: 0 <= i < |col| && col[i] != Missing ==>
              HasKey(col[i]) && if most then Key(col[i]) <= Key(r.cell) else Key(r.cell) <= Key(col[i])
  {
    var present := NonMissing(col);
    if |present| == 0 then
      assert forall i :: 0 <= i < |col| ==> col[i] == Missing by {
        assert forall i :: 0 <= i < |col| && col[i] != Missing ==> col[i] in present;
      }
      NaN
    else if !Comparable(col) then
      assert present[0] in col;
      Dash
    else
      assert forall i :: 0 <= i < |present| ==> present[i] in col;
      var c := PickByKey(present, most);
      assert forall i :: 0 <= i < |col| && col[i] != Missing ==> col[i] in present;
      Value(c)
  }

  /** When the column has a maximum it has a minimum, and it is no larger. */
  lemma MinAtMostMax(col: seq<Cell>)
    requires OrderExtreme(col, true).Value?
    ensures OrderExtreme(col, false).Value?
    ensures Key(OrderExtreme(col, false).cell) <= Key(OrderExtreme(col, true).cell)
  {
    var hi := OrderExtreme(col, true).cell;
    var lo := OrderExtreme(col, false).cell;
    var i :| 0 <= i < |col| && col[i] == lo;
  }

  /** A column of text has no order here: its max and min are "-". */
  lemma TextIsNotOrdered(col: seq<Cell>, k: nat)
    requires k < |col| && col[k].S?
    ensures OrderExtreme(col, true) == Dash && OrderExtreme(col, false) == Dash
  {
    assert !IsNumber(col[k]) && !col[k].Ts?;
  }
}
