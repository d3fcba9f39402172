/** The voltage report (`VoltageSavingsCalculator.calculate_voltage_savings`):
    per month, the energy that deviates from the nominal site voltage, what
    it costs from the grid and from the battery, and the difference, as a
    four-entry block at the top of the month's sheet. */
module Voltage {
  import opened Py
  import opened Sheets
  import opened Blocks

  /** The configuration entries the calculation reads. */
  datatype Config = Config(nominal: real, costPerKwh: real, costFuelPlusMtce: real)

  const GridVoltage: string := "Grid Voltage"
  const LoadPower: string := "Load Power"
  const LoadVoltage: string := "Load Voltage"

  /** The row's grid voltage and load power. The load voltage is parsed too,
      after them, and its value dropped: it can only raise. */
  function Reading(P: Parsers, row: Row): (r: Result<(real, real)>)
    ensures r.Ok? <==> FloatField(P, row, GridVoltage).Ok? && FloatField(P, row, LoadPower).Ok? && FloatField(P, row, LoadVoltage).Ok?
    ensures r.Ok? ==> r.value == (FloatField(P, row, GridVoltage).value, FloatField(P, row, LoadPower).value)
    ensures FloatField(P, row, GridVoltage).Err? ==> r == Err(FloatField(P, row, GridVoltage).error)
  {
    var grid :- FloatField(P, row, GridVoltage);
    var load :- FloatField(P, row, LoadPower);
    var _ :- FloatField(P, row, LoadVoltage);
    Ok((grid, load))
  }

  /** The energy deviation of one reading; dividing by a zero nominal voltage
      raises. */
  function Deviation(cfg: Config, grid: real, load: real): (r: Result<real>)
    ensures r.Err? <==> cfg.nominal == 0.0
    ensures r.Err? ==> r.error == ZeroDivisionError
    ensures r.Ok? ==> r.value * cfg.nominal == (cfg.nominal - grid) * load
  {
    if cfg.nominal == 0.0 then Err(ZeroDivisionError)
    else Ok((cfg.nominal - grid) * load / cfg.nominal)
  }

  /** A row's contribution: its reading, then its deviation. */
  function RowDeviation(P: Parsers, cfg: Config, row: Row): (r: Result<real>)
    ensures r.Ok? <==> Reading(P, row).Ok? && cfg.nominal != 0.0
  {
    var (grid, load) :- Reading(P, row);
    Deviation(cfg, grid, load)
  }

  /** `total_energy_deviation`: every row's deviation added in file order,
      with no tolerance band; the first exception ends the run. */
  function TotalDeviation(P: Parsers, cfg: Config, rows: seq<Row>): (r: Result<real>)
    decreases |rows|
  {
    if rows == [] then Ok(0.0)
    else
      var prev :- TotalDeviation(P, cfg, rows[..|rows| - 1]);
      var d :- RowDeviation(P, cfg, rows[|rows| - 1]);
      Ok(prev + d)
  }

  /** Every row parses. */
  predicate AllRead(P: Parsers, rows: seq<Row>)
  {
    forall i :: 0 <= i < |rows| ==> Reading(P, rows[i]).Ok?
  }

  /** The deviations of rows that all parse, under a non-zero nominal. */
  function Deviations(P: Parsers, cfg: Config, rows: seq<Row>): (r: seq<real>)
    requires AllRead(P, rows) && cfg.nominal != 0.0
    ensures |r| == |rows|
    ensures forall i :: 0 <= i < |rows| ==> Ok(r[i]) == RowDeviation(P, cfg, rows[i])
  {
    seq(|rows|, i requires 0 <= i < |rows| => RowDeviation(P, cfg, rows[i]).value)
  }

  /** The fold succeeds exactly when every row parses and, if there is a row
      at all, the nominal voltage is not zero. */
  lemma {:induction false} TotalDeviationOk(P: Parsers, cfg: Config, rows: seq<Row>)
    ensures TotalDeviation(P, cfg, rows).Ok? <==> AllRead(P, rows) && (rows == [] || cfg.nominal != 0.0)
    decreases |rows|
  {
    if rows != [] {
      var n := |rows| - 1;
      var init := rows[..n];
      TotalDeviationOk(P, cfg, init);
      assert forall i :: 0 <= i < n ==> init[i] == rows[i];
    }
  }

  /** When the fold succeeds on some rows, its value is the sum of the rows'
      deviations. */
  lemma {:induction false} TotalDeviationIsSum(P: Parsers, cfg: Config, rows: seq<Row>)
    requires TotalDeviation(P, cfg, rows).Ok? && rows != []
    ensures AllRead(P, rows) && cfg.nominal != 0.0
    ensures TotalDeviation(P, cfg, rows).value == Sum(Deviations(P, cfg, rows))
    decreases |rows|
  {
    TotalDeviationOk(P, cfg, rows);
    var n := |rows| - 1;
    var init := rows[..n];
    assert TotalDeviation(P, cfg, init).Ok?;
    if init != [] {
      TotalDeviationIsSum(P, cfg, init);
      assert Deviations(P, cfg, rows)[..n] == Deviations(P, cfg, init);
    } else {
      SumSingle(Deviations(P, cfg, rows)[0]);
    }
  }

  /** The first row that fails decides the exception: with a zero nominal
      voltage and a first row that parses, it is ZeroDivisionError. */
  lemma ZeroNominal(P: Parsers, cfg: Config, rows: seq<Row>)
    requires cfg.nominal == 0.0 && rows != [] && Reading(P, rows[0]).Ok?
    ensures TotalDeviation(P, cfg, rows) == Err(ZeroDivisionError)
  {
    ZeroNominalPrefix(P, cfg, rows, |rows|);
  }

  lemma {:induction false} ZeroNominalPrefix(P: Parsers, cfg: Config, rows: seq<Row>, n: nat)
    requires cfg.nominal == 0.0 && 0 < n <= |rows| && Reading(P, rows[0]).Ok?
    ensures TotalDeviation(P, cfg, rows[..n]) == Err(ZeroDivisionError)
  {
    if n == 1 {
      assert rows[..1][..0] == [];
    } else {
      assert rows[..n][..n - 1] == rows[..n - 1];
      ZeroNominalPrefix(P, cfg, rows, n - 1);
    }
  }

  /** A reading at the nominal voltage deviates by exactly 0. */
  lemma AtNominal(cfg: Config, load: real)
    requires cfg.nominal != 0.0
    ensures Deviation(cfg, cfg.nominal, load) == Ok(0.0)
  {
  }

  /** The load voltage's value is irrelevant as long as it parses. */
  lemma LoadVoltageUnused(P: Parsers, cfg: Config, row: Row, other: string)
    requires LoadVoltage in row && P.toFloat(row[LoadVoltage]).Some? && P.toFloat(other).Some?
    ensures RowDeviation(P, cfg, row[LoadVoltage := other]) == RowDeviation(P, cfg, row)
  {
    var row' := row[LoadVoltage := other];
    assert GridVoltage != LoadVoltage && LoadPower != LoadVoltage;
    assert FloatField(P, row', GridVoltage) == FloatField(P, row, GridVoltage);
    assert FloatField(P, row', LoadPower) == FloatField(P, row, LoadPower);
  }

  /** The fold is additive over a split of the file. */
  lemma {:induction false} TotalDeviationAppend(P: Parsers, cfg: Config, a: seq<Row>, b: seq<Row>)
    requires TotalDeviation(P, cfg, a).Ok? && TotalDeviation(P, cfg, b).Ok?
    ensures TotalDeviation(P, cfg, a + b) == Ok(TotalDeviation(P, cfg, a).value + TotalDeviation(P, cfg, b).value)
    decreases |b|
  {
    if b == [] {
      assert a + b == a;
    } else {
      var n := |b| - 1;
      assert (a + b)[..|a + b| - 1] == a + b[..n];
      assert (a + b)[|a + b| - 1] == b[n];
      TotalDeviationAppend(P, cfg, a, b[..n]);
    }
  }

  // ---------------------------------------------------------------------------
  // The month's figures and their block
  // ---------------------------------------------------------------------------

  /** Total deviation, its grid cost, its battery cost, and the savings. */
  datatype Figures = Figures(deviation: real, costGrid: real, batteryCost: real, savings: real)

  function FiguresOf(cfg: Config, total: real): (f: Figures)
    ensures f.deviation == total
    ensures f.costGrid == total * cfg.costPerKwh
    ensures f.batteryCost == total * cfg.costFuelPlusMtce
    ensures f.savings == total * (cfg.costPerKwh - cfg.costFuelPlusMtce)
    ensures f.costGrid - f.batteryCost == f.savings
  {
    var costGrid := total * cfg.costPerKwh;
    var battery := total * cfg.costFuelPlusMtce;
    Figures(total, costGrid, battery, costGrid - battery)
  }

  /** Rows 0 to 3, label in column 0 and value in column 1. */
  const VoltageLayout: Layout := Layout(
    [0, 1, 2, 3],
    ["Total Energy Deviation (kWh)", "Cost Without Battery Support (Grid Only)",
     "Cost With Battery Support", "Total Savings"])

  lemma VoltageLayoutWellFormed()
    ensures WellFormed(VoltageLayout)
  {
    var L := VoltageLayout;
    forall i, j | 0 <= i < j < |L.offsets| ensures L.offsets[i] < L.offsets[j] {
    }
    forall k | 0 <= k < |L.labels| ensures L.labels[k] != "" {
    }
  }

  function FigureValues(f: Figures): (r: seq<Value>)
    ensures |r| == 4
  {
    [Number(f.deviation), Number(f.costGrid), Number(f.batteryCost), Number(f.savings)]
  }

  /** One month: an absent file leaves the sheet empty; otherwise the four
      figures are written on an otherwise empty sheet. */
  function MonthSheet(P: Parsers, cfg: Config, file: Option<seq<Row>>): (r: Result<Worksheet>)
    ensures file.None? ==> r == Ok(EmptySheet)
    ensures file.Some? ==> (r.Ok? <==> TotalDeviation(P, cfg, file.value).Ok?)
  {
    match file
    case None => Ok(EmptySheet)
    case Some(rows) =>
      var total :- TotalDeviation(P, cfg, rows);
      Ok(WriteBlock(EmptySheet, 0, VoltageLayout, FigureValues(FiguresOf(cfg, total))))
  }

  /** The month sheet holds the four figures, in order, on rows 0 to 3:
      label in column 0, value in column 1. */
  lemma MonthSheetCells(P: Parsers, cfg: Config, rows: seq<Row>, k: nat)
    requires TotalDeviation(P, cfg, rows).Ok? && k < 4
    ensures var f := FiguresOf(cfg, TotalDeviation(P, cfg, rows).value);
      var ws := MonthSheet(P, cfg, Some(rows)).value;
      && Get(ws, k, 0) == Some(Str(VoltageLayout.labels[k]))
      && Get(ws, k, 1) == Stored(FigureValues(f)[k])
  {
    var f := FiguresOf(cfg, TotalDeviation(P, cfg, rows).value);
    VoltageLayoutWellFormed();
    BlockCellsOnFreshRows(EmptySheet, 0, VoltageLayout, FigureValues(f), k, MonthSheet(P, cfg, Some(rows)).value);
  }

  /** Nothing else is on the month sheet. */
  lemma MonthSheetNothingElse(P: Parsers, cfg: Config, rows: seq<Row>, i: int, j: int)
    requires TotalDeviation(P, cfg, rows).Ok?
    requires !(0 <= i < 4 && 0 <= j < 2)
    ensures Get(MonthSheet(P, cfg, Some(rows)).value, i, j) == None
  {
    var f := FiguresOf(cfg, TotalDeviation(P, cfg, rows).value);
    if i >= 0 && j >= 0 {
      assert forall k :: 0 <= k < |VoltageLayout.offsets| ==> VoltageLayout.offsets[k] == k;
      BlockFrame(EmptySheet, 0, VoltageLayout, FigureValues(f), i, j);
    }
  }

  /** Read back by the same offsets, the block gives the four figures. */
  lemma MonthSheetRoundTrip(P: Parsers, cfg: Config, rows: seq<Row>)
    requires TotalDeviation(P, cfg, rows).Ok?
    ensures var f := FiguresOf(cfg, TotalDeviation(P, cfg, rows).value);
      ReadBlock(MonthSheet(P, cfg, Some(rows)).value, 0, VoltageLayout.offsets)
        == [Some(Num(f.deviation)), Some(Num(f.costGrid)), Some(Num(f.batteryCost)), Some(Num(f.savings))]
  {
    var f := FiguresOf(cfg, TotalDeviation(P, cfg, rows).value);
    VoltageLayoutWellFormed();
    BlockRoundTrip(EmptySheet, 0, VoltageLayout, FigureValues(f));
  }

  /** The whole run: twelve sheets in month order. A missing file only
      leaves its sheet empty; an exception in any month ends the run before
      the workbook is closed. */
  function Run(P: Parsers, cfg: Config, files: seq<Option<seq<Row>>>): (r: Result<seq<Worksheet>>)
    ensures r.Ok? ==> |r.value| == |files|
    ensures r.Ok? ==> forall m :: 0 <= m < |files| ==> MonthSheet(P, cfg, files[m]) == Ok(r.value[m])
    decreases |files|
  {
    if files == [] then Ok([])
    else
      var prev :- Run(P, cfg, files[..|files| - 1]);
      var ws :- MonthSheet(P, cfg, files[|files| - 1]);
      Ok(prev + [ws])
  }

  /** The run completes exactly when every present month's fold does. */
  lemma {:induction false} RunOk(P: Parsers, cfg: Config, files: seq<Option<seq<Row>>>)
    ensures Run(P, cfg, files).Ok? <==>
      forall m :: 0 <= m < |files| && files[m].Some? ==> TotalDeviation(P, cfg, files[m].value).Ok?
    decreases |files|
  {
    if files != [] {
      var init := files[..|files| - 1];
      RunOk(P, cfg, init);
      assert forall m :: 0 <= m < |init| ==> init[m] == files[m];
    }
  }
}
