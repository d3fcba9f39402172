/** A worksheet as the scripts see it: xlsxwriter's store of written cells with
    its running `dim_rowmax`, and openpyxl's 1-based view of a saved sheet. */
module Sheets {
  import opened Py

  datatype Cell = Num(x: real) | Str(s: string)

  /** What a script hands to `Worksheet.write`: a number, a string or `None`. */
  datatype Value = Number(x: real) | Text(s: string) | Nothing

  /** Stored cells keyed by 0-based (row, column), and the largest row stored
      so far (`dim_rowmax`), which xlsxwriter leaves as `None` until the first
      cell is stored. */
  datatype Worksheet = Worksheet(cells: map<(nat, nat), Cell>, dimRowMax: Option<nat>)

  /** `dimRowMax` bounds every stored row, and is None only on an empty sheet. */
  ghost predicate Valid(ws: Worksheet)
  {
    && (ws.dimRowMax.None? ==> ws.cells == map[])
    && (ws.dimRowMax.Some? ==> forall p :: p in ws.cells ==> p.0 <= ws.dimRowMax.value)
  }

  /** Every stored row is below `row`. */
  predicate RowsBelow(ws: Worksheet, row: int)
  {
    ws.dimRowMax.None? || ws.dimRowMax.value < row
  }

  const EmptySheet: Worksheet := Worksheet(map[], None)

  /** The cell a write stores: xlsxwriter ignores a blank (an empty string or
      `None`) written without a format, so nothing is stored for it. */
  function Stored(v: Value): Option<Cell>
  {
    match v
    case Number(x) => Some(Num(x))
    case Text(s) => if s == "" then None else Some(Str(s))
    case Nothing => None
  }

  /** The stored cell at a 0-based position; None off the sheet or where
      nothing was stored. */
  function Get(ws: Worksheet, row: int, col: int): Option<Cell>
  {
    if row >= 0 && col >= 0 && (row, col) in ws.cells then Some(ws.cells[(row, col)]) else None
  }

  /** `Worksheet.write(row, col, v)`. */
  function Write(ws: Worksheet, row: nat, col: nat, v: Value): (r: Worksheet)
    ensures r.dimRowMax == if Stored(v).None? then ws.dimRowMax else Some(MaxRowOf(ws.dimRowMax, row))
    ensures forall i, j {:trigger Get(r, i, j)} ::
      Get(r, i, j) == if i == row && j == col && Stored(v).Some? then Stored(v) else Get(ws, i, j)
  {
    match Stored(v)
    case None => ws
    case Some(c) =>
      Worksheet(ws.cells[(row, col) := c], Some(MaxRowOf(ws.dimRowMax, row)))
  }

  /** The new `dim_rowmax` once `row` is stored. */
  function MaxRowOf(dim: Option<nat>, row: nat): nat
  {
    if dim.Some? && dim.value > row then dim.value else row
  }

  lemma WriteValid(ws: Worksheet, row: nat, col: nat, v: Value)
    requires Valid(ws)
    ensures Valid(Write(ws, row, col, v))
  {
  }

  /** A stored cell lies at or above `dimRowMax`, so a read below it finds
      nothing. */
  lemma NothingPastDimRowMax(ws: Worksheet, row: int, col: int)
    requires Valid(ws)
    requires ws.dimRowMax.None? || row > ws.dimRowMax.value
    ensures Get(ws, row, col) == None
  {
  }

  /** openpyxl's `max_row` on a saved sheet: the largest 1-based row holding a
      cell, and 1 on an empty sheet. */
  function MaxRow(ws: Worksheet): (r: int)
    ensures r >= 1
    ensures Valid(ws) ==> forall i, j :: i >= r ==> Get(ws, i, j) == None
  {
    match ws.dimRowMax
    case None => 1
    case Some(m) => m + 1
  }

  /** openpyxl's `worksheet.cell(row=r, column=c).value`, 1-based; indices
      below 1 raise ValueError. */
  function CellValue(ws: Worksheet, row: int, col: int): (r: Result<Option<Cell>>)
    ensures r.Ok? <==> row >= 1 && col >= 1
    ensures r.Ok? ==> r.value == Get(ws, row - 1, col - 1)
  {
    if row < 1 || col < 1 then Err(ValueError) else Ok(Get(ws, row - 1, col - 1))
  }

  /** Writes `vals` along `row` from column `col` onwards, left to right. */
  function WriteRow(ws: Worksheet, row: nat, col: nat, vals: seq<Value>): (r: Worksheet)
    ensures forall j :: 0 <= j < |vals| ==>
      Get(r, row, col + j) == if Stored(vals[j]).Some? then Stored(vals[j]) else Get(ws, row, col + j)
    ensures forall i, j {:trigger Get(r, i, j)} :: i != row || j < col || j >= col + |vals| ==> Get(r, i, j) == Get(ws, i, j)
    ensures r.dimRowMax == ws.dimRowMax || r.dimRowMax == Some(MaxRowOf(ws.dimRowMax, row))
    decreases |vals|
  {
    if vals == [] then ws
    else WriteRow(Write(ws, row, col, vals[0]), row, col + 1, vals[1..])
  }

  lemma {:induction false} WriteRowValid(ws: Worksheet, row: nat, col: nat, vals: seq<Value>)
    requires Valid(ws)
    ensures Valid(WriteRow(ws, row, col, vals))
    decreases |vals|
  {
    if vals != [] {
      WriteValid(ws, row, col, vals[0]);
      WriteRowValid(Write(ws, row, col, vals[0]), row, col + 1, vals[1..]);
    }
  }

  /** A cell read back, as the value the summary writes for it. */
  function AsValue(c: Option<Cell>): (v: Value)
    ensures Stored(v) == c || (c.Some? && c.value == Str(""))
  {
    match c
    case None => Nothing
    case Some(Num(x)) => Number(x)
    case Some(Str(s)) => Text(s)
  }

  /** A row write that stores at least one cell raises `dimRowMax` to the
      row written, if it was lower. */
  lemma {:induction false} WriteRowStores(ws: Worksheet, row: nat, col: nat, vals: seq<Value>, k: nat)
    requires k < |vals| && Stored(vals[k]).Some?
    ensures WriteRow(ws, row, col, vals).dimRowMax == Some(MaxRowOf(ws.dimRowMax, row))
    decreases |vals|
  {
    var w1 := Write(ws, row, col, vals[0]);
    if k == 0 {
      WriteRowKeepsDim(w1, row, col + 1, vals[1..]);
    } else {
      WriteRowStores(w1, row, col + 1, vals[1..], k - 1);
    }
  }

  /** Once `row` counts towards `dimRowMax`, more writes on it keep it. */
  lemma {:induction false} WriteRowKeepsDim(ws: Worksheet, row: nat, col: nat, vals: seq<Value>)
    requires ws.dimRowMax.Some? && ws.dimRowMax.value >= row
    ensures WriteRow(ws, row, col, vals).dimRowMax == ws.dimRowMax
    decreases |vals|
  {
    if vals != [] {
      WriteRowKeepsDim(Write(ws, row, col, vals[0]), row, col + 1, vals[1..]);
    }
  }
}
