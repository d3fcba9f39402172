/** The genset and frequency workbooks: each month's CSV copied onto its own
    sheet with the figures block written beneath it, and the yearly summary
    that reads the blocks back. The two scripts differ only in the block
    layout and in the genset report's three yield entries. */
module Report {
  import opened Py
  import opened Sheets
  import opened Blocks
  import Seqs
  import Metrics
  import Summary

  datatype Kind = Genset | Frequency

  const GensetLayout: Layout := Layout(
    [2, 4, 6, 8, 10, 11, 12, 20],
    ["Total kWh Saved", "Number of Outages", "Genset Fuel Savings", "Outage Savings",
     "Solar Yield", "Grid Yield", "Genset Yield", "Total Month Savings"])

  const FrequencyLayout: Layout := Layout(
    [2, 4, 6, 8, 20],
    ["Total kWh Saved", "Number of Outages", "Frequency Fuel Savings", "Outage Savings",
     "Total Month Savings"])

  function LayoutOf(k: Kind): Layout
  {
    match k
    case Genset => GensetLayout
    case Frequency => FrequencyLayout
  }

  /** Both blocks are well formed: distinct rows, one non-blank label per
      value, starting two rows below the data and ending twenty below it. */
  lemma LayoutsWellFormed(k: Kind)
    ensures WellFormed(LayoutOf(k))
    ensures |LayoutOf(k).offsets| > 0
    ensures LayoutOf(k).offsets[0] == 2
    ensures LayoutOf(k).offsets[|LayoutOf(k).offsets| - 1] == 20
  {
    var L := LayoutOf(k);
    forall i, j | 0 <= i < j < |L.offsets| ensures L.offsets[i] < L.offsets[j] {
    }
    forall e | 0 <= e < |L.labels| ensures L.labels[e] != "" {
      assert L.labels[e][0] != ' ' || L.labels[e][0] == ' ';
      assert |L.labels[e]| > 0;
    }
  }

  /** A month's entries in the three yield files; None where the file has no
      row for the month. */
  datatype Yields = Yields(solar: Option<string>, grid: Option<string>, genset: Option<string>)

  /** The block's values, entry by entry. Yields are written as text, "N/A"
      when the month has none. */
  function BlockValues(k: Kind, f: Metrics.Figures, y: Yields): (r: seq<Value>)
    ensures |r| == |LayoutOf(k).offsets|
  {
    match k
    case Genset =>
      [Number(f.kwh), Number(f.outages as real), Number(f.fuelSavings), Number(f.outageSavings),
       Text(y.solar.GetOr("N/A")), Text(y.grid.GetOr("N/A")), Text(y.genset.GetOr("N/A")),
       Number(f.total)]
    case Frequency =>
      [Number(f.kwh), Number(f.outages as real), Number(f.fuelSavings), Number(f.outageSavings),
       Number(f.total)]
  }

  /** The block entries that hold numbers, and the figure each one holds. */
  function NumericEntries(k: Kind): (r: seq<nat>)
    ensures |r| == 5
    ensures forall e :: 0 <= e < 5 ==> r[e] < |LayoutOf(k).offsets|
  {
    match k
    case Genset => [0, 1, 2, 3, 7]
    case Frequency => [0, 1, 2, 3, 4]
  }

  function FigureNumbers(f: Metrics.Figures): seq<real>
  {
    [f.kwh, f.outages as real, f.fuelSavings, f.outageSavings, f.total]
  }

  lemma NumericEntriesHoldFigures(P: Parsers, k: Kind, f: Metrics.Figures, y: Yields, e: nat)
    requires e < 5
    ensures BlockValues(k, f, y)[NumericEntries(k)[e]] == Number(FigureNumbers(f)[e])
    ensures CellNumber(P, Stored(BlockValues(k, f, y)[NumericEntries(k)[e]])) == FigureNumbers(f)[e]
  {
  }

  /** The copy loop's conversion: with a '.' the cell goes through `float`,
      otherwise through `int`; a ValueError keeps the text. */
  function Coerce(P: Parsers, cell: string): (v: Value)
    ensures v.Text? ==> v.s == cell
    ensures v.Text? <==> (if '.' in cell then P.toFloat(cell).None? else P.toInt(cell).None?)
    ensures v.Number? && '.' in cell ==> P.toFloat(cell) == Some(v.x)
    ensures v.Number? && '.' !in cell ==> v.x == P.toInt(cell).value as real
    ensures v != Nothing
  {
    if '.' in cell then
      match P.toFloat(cell)
      case Some(x) => Number(x)
      case None => Text(cell)
    else
      match P.toInt(cell)
      case Some(n) => Number(n as real)
      case None => Text(cell)
  }

  /** `ws.write(i, j, coerce(cell))` for every cell of a row, in order. */
  function CoerceRow(P: Parsers, cells: seq<string>): (r: seq<Value>)
    ensures |r| == |cells|
    ensures forall j :: 0 <= j < |cells| ==> r[j] == Coerce(P, cells[j])
    decreases |cells|
  {
    if cells == [] then []
    else CoerceRow(P, cells[..|cells| - 1]) + [Coerce(P, cells[|cells| - 1])]
  }

  /** The cell the copy loop stores for row `i`, column `j` of the file. */
  function CellAt(P: Parsers, reader: seq<seq<string>>, i: int, j: int): Option<Cell>
  {
    if 0 <= i < |reader| && 0 <= j < |reader[i]| then Stored(Coerce(P, reader[i][j])) else None
  }

  /** The copy loop, row by row: every cell of the file written at its own
      position. On an empty sheet it stores nothing below the file. */
  function CopyReader(P: Parsers, ws: Worksheet, reader: seq<seq<string>>): (r: Worksheet)
    ensures ws.dimRowMax.None? ==> RowsBelow(r, |reader|)
    decreases |reader|
  {
    if reader == [] then ws
    else
      var n := |reader| - 1;
      WriteRow(CopyReader(P, ws, reader[..n]), n, 0, CoerceRow(P, reader[n]))
  }

  /** Each position holds the file's cell there when that cell is stored,
      and what the sheet held before otherwise. */
  lemma {:induction false} CopyCells(P: Parsers, ws: Worksheet, reader: seq<seq<string>>, i: int, j: int)
    ensures Get(CopyReader(P, ws, reader), i, j)
         == if CellAt(P, reader, i, j).Some? then CellAt(P, reader, i, j) else Get(ws, i, j)
    decreases |reader|
  {
    if reader != [] {
      var n := |reader| - 1;
      var init := reader[..n];
      CopyCells(P, ws, init, i, j);
      if i != n {
        assert CellAt(P, reader, i, j) == CellAt(P, init, i, j);
      } else {
        assert CellAt(P, init, n, j) == None;
      }
    }
  }

  lemma {:induction false} CopyValid(P: Parsers, ws: Worksheet, reader: seq<seq<string>>)
    requires Valid(ws)
    ensures Valid(CopyReader(P, ws, reader))
    decreases |reader|
  {
    if reader != [] {
      var n := |reader| - 1;
      CopyValid(P, ws, reader[..n]);
      WriteRowValid(CopyReader(P, ws, reader[..n]), n, 0, CoerceRow(P, reader[n]));
    }
  }

  /** Some data row is shorter than the header. After the block, the
      column-width loop reads every data row at every header column, so
      such a file raises IndexError there. */
  predicate Ragged(rd: seq<seq<string>>)
  {
    rd != [] && exists i :: 1 <= i < |rd| && |rd[i]| < |rd[0]|
  }

  /** A month's sheet: empty when the file is absent; otherwise the copied
      file, with the block beneath it when the energy column exists. An
      exception while computing the figures, or in the column-width loop
      that follows the block, ends the run. */
  function MonthSheet(P: Parsers, rates: Metrics.Rates, k: Kind, reader: Option<seq<seq<string>>>, y: Yields): (r: Result<Worksheet>)
    ensures reader.None? ==> r == Ok(EmptySheet)
    ensures r.Err? <==>
              reader.Some? &&
              (Metrics.MonthFigures(P, rates, reader.value).Err? ||
               (Metrics.MonthFigures(P, rates, reader.value).value.Some? && Ragged(reader.value)))
    ensures (reader.Some? && Metrics.MonthFigures(P, rates, reader.value).Ok? &&
             Metrics.MonthFigures(P, rates, reader.value).value.Some? && Ragged(reader.value))
            ==> r == Err(IndexError)
  {
    match reader
    case None => Ok(EmptySheet)
    case Some(rd) =>
      match Metrics.MonthFigures(P, rates, rd)
      case Err(e) => Err(e)
      case Ok(fig) =>
        if fig.Some? && Ragged(rd) then Err(IndexError)
        else Ok(Sheet(P, k, rd, fig, y))
  }

  /** The sheet of a month whose file exists, given its figures (None when
      the energy column is missing): the copied file, then the block. */
  function Sheet(P: Parsers, k: Kind, rd: seq<seq<string>>, fig: Option<Metrics.Figures>, y: Yields): Worksheet
  {
    var copy := CopyReader(P, EmptySheet, rd);
    match fig
    case None => copy
    case Some(f) => WriteBlock(copy, |rd|, LayoutOf(k), BlockValues(k, f, y))
  }

  /** A month whose figures could be computed gets the sheet of its figures. */
  lemma MonthSheetIsSheet(P: Parsers, rates: Metrics.Rates, k: Kind, rd: seq<seq<string>>, y: Yields)
    requires Metrics.MonthFigures(P, rates, rd).Ok?
    requires Metrics.MonthFigures(P, rates, rd).value.None? || !Ragged(rd)
    ensures MonthSheet(P, rates, k, Some(rd), y) == Ok(Sheet(P, k, rd, Metrics.MonthFigures(P, rates, rd).value, y))
  {
  }

  lemma SheetValid(P: Parsers, k: Kind, rd: seq<seq<string>>, fig: Option<Metrics.Figures>, y: Yields)
    ensures Valid(Sheet(P, k, rd, fig, y))
  {
    CopyValid(P, EmptySheet, rd);
    if fig.Some? {
      BlockValid(CopyReader(P, EmptySheet, rd), |rd|, LayoutOf(k), BlockValues(k, fig.value, y));
    }
  }

  lemma MonthSheetValid(P: Parsers, rates: Metrics.Rates, k: Kind, reader: Option<seq<seq<string>>>, y: Yields)
    requires MonthSheet(P, rates, k, reader, y).Ok?
    ensures Valid(MonthSheet(P, rates, k, reader, y).value)
  {
    if reader.Some? {
      MonthSheetIsSheet(P, rates, k, reader.value, y);
      SheetValid(P, k, reader.value, Metrics.MonthFigures(P, rates, reader.value).value, y);
    }
  }

  /** The block never overwrites the copied data: every row of the file
      holds exactly what the copy loop stored there. */
  lemma SheetKeepsData(P: Parsers, k: Kind, rd: seq<seq<string>>, fig: Option<Metrics.Figures>, y: Yields, i: int, j: int)
    requires i < |rd|
    ensures Get(Sheet(P, k, rd, fig, y), i, j) == CellAt(P, rd, i, j)
  {
    CopyCells(P, EmptySheet, rd, i, j);
    if fig.Some? {
      LayoutsWellFormed(k);
      BlockLeavesRowsAbove(CopyReader(P, EmptySheet, rd), |rd|, LayoutOf(k), BlockValues(k, fig.value, y), i, j);
    }
  }

  /** Without the energy column the month's sheet is the bare copy, with
      nothing beneath the data. */
  lemma MonthSheetWithoutColumn(P: Parsers, rates: Metrics.Rates, k: Kind, rd: seq<seq<string>>, y: Yields, i: int, j: int)
    requires rd != [] && Metrics.EnergySaving !in rd[0]
    requires i >= |rd|
    ensures MonthSheet(P, rates, k, Some(rd), y) == Ok(Sheet(P, k, rd, None, y))
    ensures Get(Sheet(P, k, rd, None, y), i, j) == None
  {
    CopyCells(P, EmptySheet, rd, i, j);
  }

  /** Every row of the file holds exactly what the copy loop stored there. */
  lemma MonthSheetKeepsData(P: Parsers, rates: Metrics.Rates, k: Kind, rd: seq<seq<string>>, y: Yields, i: int, j: int)
    requires MonthSheet(P, rates, k, Some(rd), y).Ok?
    requires i < |rd|
    ensures Get(MonthSheet(P, rates, k, Some(rd), y).value, i, j) == CellAt(P, rd, i, j)
  {
    MonthSheetIsSheet(P, rates, k, rd, y);
    SheetKeepsData(P, k, rd, Metrics.MonthFigures(P, rates, rd).value, y, i, j);
  }

  /** With figures the last stored row is the block's last, twenty rows
      below the data. */
  lemma SheetDimRowMax(P: Parsers, k: Kind, rd: seq<seq<string>>, f: Metrics.Figures, y: Yields)
    ensures Sheet(P, k, rd, Some(f), y).dimRowMax == Some(|rd| + 20)
  {
    LayoutsWellFormed(k);
    BlockDimRowMax(CopyReader(P, EmptySheet, rd), |rd|, LayoutOf(k), BlockValues(k, f, y));
  }

  /** The reader as written: `dim_rowmax + 1` as base (a TypeError while the
      sheet is empty and `dim_rowmax` is None), the block offsets from there. */
  function ReadAsWritten(ws: Worksheet, offsets: seq<nat>): (r: Result<seq<Option<Cell>>>)
    ensures r.Err? <==> ws.dimRowMax.None?
    ensures r.Err? ==> r.error == TypeError
    ensures r.Ok? ==> |r.value| == |offsets|
  {
    match ws.dimRowMax
    case None => Err(TypeError)
    case Some(d) => Ok(ReadBlock(ws, d + 1, offsets))
  }

  /** Whatever the sheet holds, the reader as written finds nothing: every
      offset lands past the last stored row. */
  lemma AsWrittenReadsNothing(ws: Worksheet, offsets: seq<nat>)
    requires Valid(ws) && ReadAsWritten(ws, offsets).Ok?
    ensures forall e :: 0 <= e < |offsets| ==> ReadAsWritten(ws, offsets).value[e] == None
  {
    ReadPastSheet(ws, ws.dimRowMax.value + 1, offsets);
  }

  /** The reader's base is never the writer's: with a block it is
      `len(reader) + 21`, one row past the block's last row. */
  lemma AsWrittenBase(P: Parsers, rates: Metrics.Rates, k: Kind, rd: seq<seq<string>>, y: Yields)
    requires MonthSheet(P, rates, k, Some(rd), y).Ok?
    requires Metrics.MonthFigures(P, rates, rd).Ok? && Metrics.MonthFigures(P, rates, rd).value.Some?
    ensures var ws := MonthSheet(P, rates, k, Some(rd), y).value;
      ws.dimRowMax.Some? && ws.dimRowMax.value + 1 == |rd| + 21
  {
    MonthSheetIsSheet(P, rates, k, rd, y);
    SheetDimRowMax(P, k, rd, Metrics.MonthFigures(P, rates, rd).value.value, y);
  }

  /** `total += value`: a number adds; None or text raises TypeError. */
  function AddCell(acc: real, c: Option<Cell>): (r: Result<real>)
    ensures r.Ok? <==> c.Some? && c.value.Num?
    ensures r.Ok? ==> r.value == acc + c.value.x
    ensures r.Err? ==> r.error == TypeError
  {
    match c
    case Some(Num(x)) => Ok(acc + x)
    case _ => Err(TypeError)
  }

  /** The month's `+=` statements, one field after the other. */
  function AddCells(totals: seq<real>, cells: seq<Option<Cell>>): (r: Result<seq<real>>)
    requires |totals| == |cells|
    ensures r.Ok? ==> |r.value| == |totals|
    ensures r.Err? ==> r.error == TypeError
    ensures |cells| > 0 && cells[0].None? ==> r == Err(TypeError)
  {
    if cells == [] then Ok([])
    else
      match AddCell(totals[0], cells[0])
      case Err(e) => Err(e)
      case Ok(t) =>
        match AddCells(totals[1..], cells[1..])
        case Err(e) => Err(e)
        case Ok(ts) => Ok([t] + ts)
  }

  /** Every month's sheet is added before the file check, so the
      `worksheet is None` test never skips a month: an absent month leaves an
      empty sheet, and `dim_rowmax + 1` raises TypeError on it. */
  lemma AbsentMonthAsWritten(P: Parsers, rates: Metrics.Rates, k: Kind, y: Yields)
    ensures MonthSheet(P, rates, k, None, y) == Ok(EmptySheet)
    ensures ReadAsWritten(EmptySheet, LayoutOf(k).offsets) == Err(TypeError)
    ensures YearAsWritten([EmptySheet], k) == Err(TypeError)
  {
  }

  /** `_calculate_year_savings` as written, month by month: read the block
      at `dim_rowmax + 1` and add each value into the running totals. */
  function YearAsWritten(sheets: seq<Worksheet>, k: Kind): (r: Result<seq<real>>)
    ensures r.Ok? ==> |r.value| == |LayoutOf(k).offsets|
    decreases |sheets|
  {
    if sheets == [] then Ok(Summary.Zeros(|LayoutOf(k).offsets|))
    else
      var prev :- YearAsWritten(sheets[..|sheets| - 1], k);
      var cells :- ReadAsWritten(sheets[|sheets| - 1], LayoutOf(k).offsets);
      AddCells(prev, cells)
  }

  /** As written the yearly step can never complete: the first month's sheet
      is either empty (`None + 1`) or read past its last row (`0 + None`). */
  lemma {:induction false} YearAsWrittenFails(sheets: seq<Worksheet>, k: Kind)
    requires |sheets| > 0 && Valid(sheets[0])
    ensures YearAsWritten(sheets, k) == Err(TypeError)
    decreases |sheets|
  {
    var init := sheets[..|sheets| - 1];
    if |sheets| > 1 {
      assert init[0] == sheets[0];
      YearAsWrittenFails(init, k);
    } else {
      LayoutsWellFormed(k);
      assert YearAsWritten(init, k).Ok?;
      var cells := ReadAsWritten(sheets[0], LayoutOf(k).offsets);
      if cells.Ok? {
        AsWrittenReadsNothing(sheets[0], LayoutOf(k).offsets);
        assert cells.value[0] == None;
      }
    }
  }

  /** The month inputs: the month's CSV (None when the file is absent) and
      its yields. */
  datatype MonthInput = MonthInput(reader: Option<seq<seq<string>>>, yieldData: Yields)

  /** The twelve month sheets, built in calendar order; the first exception
      ends the run. */
  function MonthSheets(P: Parsers, rates: Metrics.Rates, k: Kind, months: seq<MonthInput>): (r: Result<seq<Worksheet>>)
    ensures r.Ok? ==> |r.value| == |months|
    ensures r.Ok? ==> forall m :: 0 <= m < |months| ==>
      MonthSheet(P, rates, k, months[m].reader, months[m].yieldData) == Ok(r.value[m])
    decreases |months|
  {
    if months == [] then Ok([])
    else
      var first :- MonthSheet(P, rates, k, months[0].reader, months[0].yieldData);
      var rest :- MonthSheets(P, rates, k, months[1..]);
      assert forall m :: 0 < m < |months| ==> months[m] == months[1..][m - 1];
      Ok([first] + rest)
  }

  /** `calculate_genset_savings` / `calculate_frequency_savings` as written:
      every month's sheet, then the yearly step. With at least one month it
      never completes, so the workbook is never saved. */
  function RunAsWritten(P: Parsers, rates: Metrics.Rates, k: Kind, months: seq<MonthInput>): (r: Result<seq<real>>)
  {
    var sheets :- MonthSheets(P, rates, k, months);
    YearAsWritten(sheets, k)
  }

  lemma RunAsWrittenNeverCompletes(P: Parsers, rates: Metrics.Rates, k: Kind, months: seq<MonthInput>)
    requires |months| > 0
    ensures RunAsWritten(P, rates, k, months).Err?
    ensures MonthSheets(P, rates, k, months).Ok? ==> RunAsWritten(P, rates, k, months) == Err(TypeError)
  {
    var sheets := MonthSheets(P, rates, k, months);
    if sheets.Ok? {
      MonthSheetValid(P, rates, k, months[0].reader, months[0].yieldData);
      YearAsWrittenFails(sheets.value, k);
    }
  }

  /** The value a cell contributes under the corrected reader: a number as
      it is, text through `float` (0 when that fails, as for "N/A"), and a
      missing cell 0. */
  function CellNumber(P: Parsers, c: Option<Cell>): real
  {
    match c
    case None => 0.0
    case Some(Num(x)) => x
    case Some(Str(s)) => P.toFloat(s).GetOr(0.0)
  }

  /** The corrected reader: the block at the writer's own base, the number
      of rows in the month's file. */
  function ReadFixed(P: Parsers, ws: Worksheet, dataRows: nat, k: Kind): (r: seq<real>)
    ensures |r| == |LayoutOf(k).offsets|
    ensures forall e :: 0 <= e < |r| ==> r[e] == CellNumber(P, Get(ws, dataRows + LayoutOf(k).offsets[e], 1))
  {
    var cells := ReadBlock(ws, dataRows, LayoutOf(k).offsets);
    seq(|cells|, e requires 0 <= e < |cells| => CellNumber(P, cells[e]))
  }

  /** What a month contributes to each summary column under the corrected
      reader: its figures where it has a block, 0 where it has none. */
  function MonthNumbers(P: Parsers, rates: Metrics.Rates, rd: seq<seq<string>>): (r: seq<real>)
    requires Metrics.MonthFigures(P, rates, rd).Ok?
    ensures |r| == 5
  {
    match Metrics.MonthFigures(P, rates, rd).value
    case Some(f) => FigureNumbers(f)
    case None => Summary.Zeros(5)
  }

  /** Write/read agreement for the corrected reader: every numeric entry
      reads back as the figure written there, and a month without a block
      reads back as 0. */
  lemma FixedReadsFigures(P: Parsers, rates: Metrics.Rates, k: Kind, rd: seq<seq<string>>, y: Yields, ws: Worksheet, e: nat)
    requires MonthSheet(P, rates, k, Some(rd), y) == Ok(ws)
    requires e < 5
    ensures Metrics.MonthFigures(P, rates, rd).Ok?
    ensures ReadFixed(P, ws, |rd|, k)[NumericEntries(k)[e]] == MonthNumbers(P, rates, rd)[e]
  {
    MonthSheetIsSheet(P, rates, k, rd, y);
    CopyValid(P, EmptySheet, rd);
    match Metrics.MonthFigures(P, rates, rd).value
    case Some(f) =>
      BlockRead(P, k, CopyReader(P, EmptySheet, rd), |rd|, f, y, e, ws);
    case None =>
      CopyCells(P, EmptySheet, rd, |rd| + LayoutOf(k).offsets[NumericEntries(k)[e]], 1);
      ReadsCell(P, ws, |rd|, k, NumericEntries(k)[e], None);
  }

  lemma BlockRead(P: Parsers, k: Kind, copy: Worksheet, n: nat, f: Metrics.Figures, y: Yields, e: nat, ws: Worksheet)
    requires Valid(copy) && RowsBelow(copy, n) && e < 5
    requires ws == WriteBlock(copy, n, LayoutOf(k), BlockValues(k, f, y))
    ensures ReadFixed(P, ws, n, k)[NumericEntries(k)[e]] == FigureNumbers(f)[e]
  {
    var ne := NumericEntries(k)[e];
    var vals := BlockValues(k, f, y);
    LayoutsWellFormed(k);
    BlockCellsOnFreshRows(copy, n, LayoutOf(k), vals, ne, ws);
    NumericEntriesHoldFigures(P, k, f, y, e);
    ReadsCell(P, ws, n, k, ne, Stored(vals[ne]));
    assert ReadFixed(P, ws, n, k)[ne] == CellNumber(P, Stored(vals[ne]));
  }

  /** Entry e of the corrected read is the number of the cell at its row. */
  lemma ReadsCell(P: Parsers, ws: Worksheet, n: nat, k: Kind, e: nat, c: Option<Cell>)
    requires e < |LayoutOf(k).offsets|
    requires Get(ws, n + LayoutOf(k).offsets[e], 1) == c
    ensures ReadFixed(P, ws, n, k)[e] == CellNumber(P, c)
  {
  }

  /** The corrected yearly step over the months so far, sheet side: a month
      whose file was absent is skipped, as the `worksheet is None` test
      intends; any other month gets its summary row (row m + 1) with the
      values read at its own data row count. */
  function YearSheet(P: Parsers, k: Kind, months: seq<Option<(Worksheet, nat)>>): (r: Worksheet)
    requires |months| <= |Summary.Months|
    decreases |months|
  {
    if months == [] then Summary.WriteHeader(LayoutOf(k).labels)
    else
      var m := |months| - 1;
      AddMonth(k, YearSheet(P, k, months[..m]), m, months[m])
  }

  /** One month's summary row, when its file exists: its name, then the
      values of its block. */
  function AddMonth(k: Kind, prev: Worksheet, m: nat, month: Option<(Worksheet, nat)>): (r: Worksheet)
    requires m < |Summary.Months|
    ensures forall i {:trigger Get(r, i, 0)} :: Get(r, i, 0) == if i == m + 1 && month.Some? then Some(Str(Summary.Months[m])) else Get(prev, i, 0)
  {
    match month
    case None => prev
    case Some((ws, n)) =>
      var cells := ReadBlock(ws, n, LayoutOf(k).offsets);
      var vals := seq(|cells|, e requires 0 <= e < |cells| => AsValue(cells[e]));
      Summary.MonthRow(prev, m, vals)
  }

  /** The corrected yearly step, totals side: each present month's values,
      read with the corrected reader, added into the running totals. */
  function YearTotals(P: Parsers, k: Kind, months: seq<Option<(Worksheet, nat)>>): (r: seq<real>)
    ensures |r| == |LayoutOf(k).offsets|
    decreases |months|
  {
    if months == [] then Summary.Zeros(|LayoutOf(k).offsets|)
    else
      var m := |months| - 1;
      match months[m]
      case None => YearTotals(P, k, months[..m])
      case Some((ws, n)) => Summary.AddTo(YearTotals(P, k, months[..m]), ReadFixed(P, ws, n, k))
  }

  /** The summary sheet: header, month rows, and the totals on row 13. */
  function SummaryFixed(P: Parsers, k: Kind, months: seq<Option<(Worksheet, nat)>>): (r: Worksheet)
    requires |months| <= |Summary.Months|
    ensures Get(r, Summary.TotalsRow, 0) == Some(Str("Yearly Totals"))
    ensures forall e :: 0 <= e < |LayoutOf(k).offsets| ==>
      Get(r, Summary.TotalsRow, e + 1) == Some(Num(YearTotals(P, k, months)[e]))
  {
    Summary.WriteTotals(YearSheet(P, k, months), YearTotals(P, k, months))
  }

  /** Row m + 1 of the summary names month m exactly when its file exists. */
  lemma {:induction false} YearSheetRows(P: Parsers, k: Kind, months: seq<Option<(Worksheet, nat)>>, m: nat)
    requires |months| <= |Summary.Months| && m < |months|
    ensures Get(YearSheet(P, k, months), m + 1, 0) == if months[m].Some? then Some(Str(Summary.Months[m])) else None
    decreases |months|
  {
    var last := |months| - 1;
    var init := months[..last];
    if m < last {
      assert init[m] == months[m];
      YearSheetRows(P, k, init, m);
    } else {
      YearSheetEmptyBelow(P, k, init, m + 1);
    }
  }

  /** The header stays on row 0. */
  lemma {:induction false} YearSheetHeader(P: Parsers, k: Kind, months: seq<Option<(Worksheet, nat)>>)
    requires |months| <= |Summary.Months|
    ensures Get(YearSheet(P, k, months), 0, 0) == Some(Str("Month"))
    decreases |months|
  {
    if months != [] {
      YearSheetHeader(P, k, months[..|months| - 1]);
    }
  }

  /** Nothing is written below the last month processed so far. */
  lemma {:induction false} YearSheetEmptyBelow(P: Parsers, k: Kind, months: seq<Option<(Worksheet, nat)>>, i: int)
    requires |months| <= |Summary.Months| && i > |months|
    ensures Get(YearSheet(P, k, months), i, 0) == None
    decreases |months|
  {
    if months != [] {
      YearSheetEmptyBelow(P, k, months[..|months| - 1], i);
    }
  }

  /** Every present month's figures could be computed. */
  predicate Figured(P: Parsers, rates: Metrics.Rates, inputs: seq<MonthInput>)
  {
    forall m :: 0 <= m < |inputs| && inputs[m].reader.Some? ==>
      Metrics.MonthFigures(P, rates, inputs[m].reader.value).Ok?
  }

  /** Entry `e` of every month's figures, months without a file left out. */
  function FigureColumn(P: Parsers, rates: Metrics.Rates, inputs: seq<MonthInput>, e: nat): seq<real>
    requires e < 5 && Figured(P, rates, inputs)
    decreases |inputs|
  {
    if inputs == [] then []
    else
      var m := |inputs| - 1;
      FigureColumn(P, rates, inputs[..m], e)
        + (if inputs[m].reader.Some? then [MonthNumbers(P, rates, inputs[m].reader.value)[e]] else [])
  }

  /** What the corrected reader is given: each built sheet, with its file's
      row count where the file exists. */
  function Outs(sheets: seq<Worksheet>, inputs: seq<MonthInput>): (r: seq<Option<(Worksheet, nat)>>)
    requires |sheets| == |inputs|
    ensures |r| == |inputs|
    ensures forall m :: 0 <= m < |inputs| ==>
      r[m] == if inputs[m].reader.Some? then Some((sheets[m], |inputs[m].reader.value|)) else None
  {
    seq(|inputs|, m requires 0 <= m < |inputs| =>
      if inputs[m].reader.Some? then Some((sheets[m], |inputs[m].reader.value|)) else None)
  }

  /** The sheets are the ones built from the inputs. */
  predicate Built(P: Parsers, rates: Metrics.Rates, k: Kind, inputs: seq<MonthInput>, sheets: seq<Worksheet>)
  {
    |sheets| == |inputs| &&
    forall m :: 0 <= m < |inputs| ==>
      MonthSheet(P, rates, k, inputs[m].reader, inputs[m].yieldData) == Ok(sheets[m])
  }

  lemma BuiltFigured(P: Parsers, rates: Metrics.Rates, k: Kind, inputs: seq<MonthInput>, sheets: seq<Worksheet>)
    requires Built(P, rates, k, inputs, sheets)
    ensures Figured(P, rates, inputs)
  {
    forall m | 0 <= m < |inputs| && inputs[m].reader.Some?
      ensures Metrics.MonthFigures(P, rates, inputs[m].reader.value).Ok?
    {
      assert MonthSheet(P, rates, k, inputs[m].reader, inputs[m].yieldData).Ok?;
    }
  }

  /** One month of the corrected fold: a present month adds the figure its
      sheet holds, an absent one adds nothing. */
  lemma YearTotalsStep(P: Parsers, rates: Metrics.Rates, k: Kind, inputs: seq<MonthInput>, sheets: seq<Worksheet>, e: nat)
    requires |inputs| <= |Summary.Months| && inputs != [] && e < 5
    requires Built(P, rates, k, inputs, sheets)
    ensures Figured(P, rates, inputs)
    ensures var m := |inputs| - 1;
      YearTotals(P, k, Outs(sheets, inputs))[NumericEntries(k)[e]]
      == YearTotals(P, k, Outs(sheets[..m], inputs[..m]))[NumericEntries(k)[e]]
         + (if inputs[m].reader.Some? then MonthNumbers(P, rates, inputs[m].reader.value)[e] else 0.0)
  {
    BuiltFigured(P, rates, k, inputs, sheets);
    var m := |inputs| - 1;
    assert Outs(sheets, inputs)[..m] == Outs(sheets[..m], inputs[..m]);
    if inputs[m].reader.Some? {
      FixedReadsFigures(P, rates, k, inputs[m].reader.value, inputs[m].yieldData, sheets[m], e);
    }
  }

  /** Read/write agreement over the year: with the corrected reader every
      numeric total is the sum of that figure over the months whose file
      exists (a month without the energy column adding 0). */
  lemma {:induction false} YearTotalsSums(P: Parsers, rates: Metrics.Rates, k: Kind, inputs: seq<MonthInput>, sheets: seq<Worksheet>, e: nat)
    requires |inputs| <= |Summary.Months| && e < 5
    requires Built(P, rates, k, inputs, sheets)
    ensures Figured(P, rates, inputs)
    ensures YearTotals(P, k, Outs(sheets, inputs))[NumericEntries(k)[e]] == Sum(FigureColumn(P, rates, inputs, e))
    decreases |inputs|
  {
    BuiltFigured(P, rates, k, inputs, sheets);
    if inputs == [] {
      assert Outs(sheets, inputs) == [];
    } else {
      var m := |inputs| - 1;
      assert Built(P, rates, k, inputs[..m], sheets[..m]);
      YearTotalsSums(P, rates, k, inputs[..m], sheets[..m], e);
      YearTotalsStep(P, rates, k, inputs, sheets, e);
      var prev := FigureColumn(P, rates, inputs[..m], e);
      if inputs[m].reader.Some? {
        var x := MonthNumbers(P, rates, inputs[m].reader.value)[e];
        assert FigureColumn(P, rates, inputs, e) == prev + [x];
        SumAppend(prev, [x]);
        SumSingle(x);
      } else {
        assert FigureColumn(P, rates, inputs, e) == prev + [];
        assert prev + [] == prev;
      }
    }
  }

  /** The corrected run: the twelve sheets as before, then the summary built
      with the corrected reader, which saves the workbook. */
  function RunFixed(P: Parsers, rates: Metrics.Rates, k: Kind, inputs: seq<MonthInput>): (r: Result<Worksheet>)
    requires |inputs| <= |Summary.Months|
    ensures r.Err? <==> MonthSheets(P, rates, k, inputs).Err?
  {
    var sheets :- MonthSheets(P, rates, k, inputs);
    Ok(SummaryFixed(P, k, Outs(sheets, inputs)))
  }

  /** The corrected run's totals row holds, for every numeric entry, the sum
      of that figure over the months whose file exists. */
  lemma RunFixedTotals(P: Parsers, rates: Metrics.Rates, k: Kind, inputs: seq<MonthInput>, e: nat)
    requires |inputs| <= |Summary.Months| && e < 5
    requires RunFixed(P, rates, k, inputs).Ok?
    ensures Figured(P, rates, inputs)
    ensures Get(RunFixed(P, rates, k, inputs).value, Summary.TotalsRow, NumericEntries(k)[e] + 1)
         == Some(Num(Sum(FigureColumn(P, rates, inputs, e))))
  {
    var sheets := MonthSheets(P, rates, k, inputs).value;
    YearTotalsSums(P, rates, k, inputs, sheets, e);
  }
}

