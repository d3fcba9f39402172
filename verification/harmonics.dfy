/** The harmonic-distortion report (`CalculateHarmonicSavings`): samples
    grouped by month from one CSV file, a sheet per month with the savings of
    every non-compliant sample and three totals under them, and a yearly
    summary that reads those totals back from the previously saved workbook. */
module Harmonics {
  import opened Py
  import opened Sheets
  import Seqs
  import Summary

  /** One 5-minute sample of the harmonic file. */
  datatype Sample = Sample(timestamp: string, thdI: real, thdV: real, kva: real)

  /** The configuration entries the calculation reads: the THD limits, the
      loss factor and the energy price. */
  datatype Config = Config(limitI: real, limitV: real, lossFactor: real, costPerKwh: real)

  const MonthKey: string := "Month"
  const TimestampKey: string := "Timestamp"
  const ThdIKey: string := "THD_I"
  const ThdVKey: string := "THD_V"
  const KvaKey: string := "Apparent Power (kVA)"

  // ---------------------------------------------------------------------------
  // Loading (`load_harmonic_data`)
  // ---------------------------------------------------------------------------

  /** The row has a timestamp and three numbers `float` accepts. */
  predicate Parses(P: Parsers, row: Row)
  {
    && TimestampKey in row
    && ThdIKey in row && P.toFloat(row[ThdIKey]).Some?
    && ThdVKey in row && P.toFloat(row[ThdVKey]).Some?
    && KvaKey in row && P.toFloat(row[KvaKey]).Some?
  }

  /** The sample a row of a listed month becomes; fields are looked up and
      parsed in the order the dictionary literal names them. */
  function ParseSample(P: Parsers, row: Row): (r: Result<Sample>)
    ensures r.Ok? <==> Parses(P, row)
    ensures r.Ok? ==> && r.value.timestamp == row[TimestampKey]
                      && P.toFloat(row[ThdIKey]) == Some(r.value.thdI)
                      && P.toFloat(row[ThdVKey]) == Some(r.value.thdV)
                      && P.toFloat(row[KvaKey]) == Some(r.value.kva)
    ensures TimestampKey !in row ==> r == Err(KeyError(TimestampKey))
  {
    var t :- Field(row, TimestampKey);
    var i :- FloatField(P, row, ThdIKey);
    var v :- FloatField(P, row, ThdVKey);
    var a :- FloatField(P, row, KvaKey);
    Ok(Sample(t, i, v, a))
  }

  /** One empty list per calendar month. */
  const NoSamples: map<string, seq<Sample>> := map m | m in Summary.Months :: []

  /** The month keys of a grouping. */
  predicate ByMonth(g: map<string, seq<Sample>>)
  {
    g.Keys == NoSamples.Keys
  }

  /** The reading loop: every row must carry a month; a row of a calendar
      month is parsed and appended to that month's list, any other row is
      skipped without being parsed. The first exception ends the load. */
  function Group(P: Parsers, rows: seq<Row>): (r: Result<map<string, seq<Sample>>>)
    ensures r.Ok? ==> ByMonth(r.value)
    decreases |rows|
  {
    if rows == [] then Ok(NoSamples)
    else
      var g :- Group(P, rows[..|rows| - 1]);
      var row := rows[|rows| - 1];
      var month :- Field(row, MonthKey);
      if month in g then
        var s :- ParseSample(P, row);
        Ok(g[month := g[month] + [s]])
      else Ok(g)
  }

  /** `load_harmonic_data`: a missing file gives an empty dictionary. */
  function LoadHarmonicData(P: Parsers, file: Option<seq<Row>>): (r: Result<map<string, seq<Sample>>>)
    ensures file.None? ==> r == Ok(map[])
    ensures file.Some? ==> r == Group(P, file.value)
  {
    match file
    case None => Ok(map[])
    case Some(rows) => Group(P, rows)
  }

  /** `harmonic_data.get(month, [])`. */
  function MonthData(g: map<string, seq<Sample>>, month: string): seq<Sample>
  {
    if month in g then g[month] else []
  }

  /** The row is tagged with `month`. */
  predicate InMonth(month: string, row: Row)
  {
    MonthKey in row && row[MonthKey] == month
  }

  function OfMonth(month: string): Row -> bool
  {
    row => InMonth(month, row)
  }

  /** What the load demands of every row: a month, and a parsable sample when
      that month is a calendar month. */
  predicate Loadable(P: Parsers, rows: seq<Row>)
  {
    forall i :: 0 <= i < |rows| ==>
      MonthKey in rows[i] && (rows[i][MonthKey] in Summary.Months ==> Parses(P, rows[i]))
  }

  /** The load succeeds exactly on loadable rows: rows of other months are
      never parsed, so they cannot make it fail. */
  lemma {:induction false} GroupOk(P: Parsers, rows: seq<Row>)
    ensures Group(P, rows).Ok? <==> Loadable(P, rows)
    decreases |rows|
  {
    if rows != [] {
      var init := rows[..|rows| - 1];
      GroupOk(P, init);
      assert forall i :: 0 <= i < |init| ==> init[i] == rows[i];
    }
  }

  /** A filter over one more element. */
  lemma FilterSnoc(rows: seq<Row>, keep: Row -> bool)
    requires rows != []
    ensures Seqs.Filter(rows, keep)
         == Seqs.Filter(rows[..|rows| - 1], keep) + (if keep(rows[|rows| - 1]) then [rows[|rows| - 1]] else [])
  {
    var last := rows[|rows| - 1];
    assert rows == rows[..|rows| - 1] + [last];
    Seqs.FilterConcat(rows[..|rows| - 1], [last], keep);
    assert [last][1..] == [];
  }

  /** Reference for the grouping: a month's list holds the samples of the
      rows tagged with that month, in file order. */
  lemma {:induction false} GroupByMonth(P: Parsers, rows: seq<Row>, month: string)
    requires Group(P, rows).Ok? && month in Summary.Months
    ensures var F := Seqs.Filter(rows, OfMonth(month));
      && |Group(P, rows).value[month]| == |F|
      && forall i :: 0 <= i < |F| ==> ParseSample(P, F[i]) == Ok(Group(P, rows).value[month][i])
    decreases |rows|
  {
    var F := Seqs.Filter(rows, OfMonth(month));
    if rows == [] {
      assert NoSamples[month] == [];
    } else {
      var init := rows[..|rows| - 1];
      var row := rows[|rows| - 1];
      GroupByMonth(P, init, month);
      FilterSnoc(rows, OfMonth(month));
      var g := Group(P, init).value;
      var Fi := Seqs.Filter(init, OfMonth(month));
      if InMonth(month, row) {
        assert F == Fi + [row];
        assert Group(P, rows).value[month] == g[month] + [ParseSample(P, row).value];
      } else {
        assert F == Fi + [];
        assert Group(P, rows).value[month] == g[month];
      }
    }
  }

  // ---------------------------------------------------------------------------
  // Savings of one sample (`_calculate_savings`)
  // ---------------------------------------------------------------------------

  /** Non-compliant energy (kVAh), energy losses (kWh) and cost savings. */
  datatype Savings = Savings(nc: real, loss: real, cost: real)

  /** Either distortion strictly exceeds its limit. */
  predicate NonCompliant(cfg: Config, s: Sample)
  {
    s.thdI > cfg.limitI || s.thdV > cfg.limitV
  }

  /** A compliant sample saves nothing; a non-compliant one counts its
      apparent power over a 5-minute interval, a share of it proportional to
      THD_I as losses, and those losses at the energy price. */
  function SavingsOf(cfg: Config, s: Sample): (r: Savings)
    ensures !NonCompliant(cfg, s) ==> r == Savings(0.0, 0.0, 0.0)
  {
    if NonCompliant(cfg, s) then
      var nc := s.kva * (5.0 / 60.0);
      var loss := cfg.lossFactor * nc * (s.thdI / 100.0);
      Savings(nc, loss, loss * cfg.costPerKwh)
    else Savings(0.0, 0.0, 0.0)
  }

  /** The three savings of a sample in terms of one another: the energy is
      a twelfth of the apparent power when non-compliant, the losses are
      that energy times the loss factor times THD_I percent, the cost is the
      losses at the energy price. */
  lemma SavingsFormulas(cfg: Config, s: Sample)
    ensures var r := SavingsOf(cfg, s);
      && (NonCompliant(cfg, s) ==> r.nc * 12.0 == s.kva)
      && r.loss * 100.0 == cfg.lossFactor * r.nc * s.thdI
      && r.cost == r.loss * cfg.costPerKwh
  {
  }

  /** The cost savings in closed form: loss factor times price times
      apparent power times THD_I over 1200 when non-compliant, else 0. */
  lemma SavingsClosedForm(cfg: Config, s: Sample)
    ensures SavingsOf(cfg, s).cost * 1200.0
         == if NonCompliant(cfg, s) then cfg.lossFactor * cfg.costPerKwh * s.kva * s.thdI else 0.0
  {
    var r := SavingsOf(cfg, s);
    SavingsFormulas(cfg, s);
    if NonCompliant(cfg, s) {
      calc {
        r.cost * 1200.0;
        r.loss * 100.0 * cfg.costPerKwh * 12.0;
        cfg.lossFactor * (r.nc * 12.0) * s.thdI * cfg.costPerKwh;
      }
    }
  }

  /** The gate is strict: a sample exactly at both limits saves nothing,
      and one just above the current limit saves its energy. */
  lemma SavingsAtLimits(cfg: Config, s: Sample)
    requires s.thdI == cfg.limitI && s.thdV == cfg.limitV
    ensures SavingsOf(cfg, s) == Savings(0.0, 0.0, 0.0)
    ensures SavingsOf(cfg, s.(thdI := cfg.limitI + 1.0)).nc * 12.0 == s.kva
  {
    SavingsFormulas(cfg, s.(thdI := cfg.limitI + 1.0));
  }

  /** With non-negative inputs every saving is non-negative. */
  lemma SavingsNonNegative(cfg: Config, s: Sample)
    requires s.kva >= 0.0 && s.thdI >= 0.0 && cfg.lossFactor >= 0.0 && cfg.costPerKwh >= 0.0
    ensures SavingsOf(cfg, s).nc >= 0.0 && SavingsOf(cfg, s).loss >= 0.0 && SavingsOf(cfg, s).cost >= 0.0
  {
  }

  // ---------------------------------------------------------------------------
  // The month sheet (`_process_month_data`)
  // ---------------------------------------------------------------------------

  const SampleHeaders: seq<string> := [
    "Timestamp", "THD_I", "THD_V", "Apparent Power (kVA)",
    "Non-Compliant Energy (kVAh)", "Energy Losses (kWh)", "Cost Savings ($)"
  ]

  const TotalLabels: seq<string> := [
    "Total Non-Compliant Energy (kVAh)", "Total Energy Losses (kWh)", "Total Cost Savings ($)"
  ]

  /** The seven cells of a sample's row. */
  function SampleRow(cfg: Config, s: Sample): (r: seq<Value>)
    ensures |r| == 7
  {
    var sv := SavingsOf(cfg, s);
    [Text(s.timestamp), Number(s.thdI), Number(s.thdV), Number(s.kva),
     Number(sv.nc), Number(sv.loss), Number(sv.cost)]
  }

  /** Saving `e` (0: non-compliant energy, 1: losses, 2: cost) of a sample. */
  function SavingAt(cfg: Config, s: Sample, e: nat): real
    requires e < 3
  {
    var sv := SavingsOf(cfg, s);
    if e == 0 then sv.nc else if e == 1 then sv.loss else sv.cost
  }

  /** Saving `e` of every sample of the month, in order. */
  function Column(cfg: Config, samples: seq<Sample>, e: nat): (r: seq<real>)
    requires e < 3
    ensures |r| == |samples|
    ensures forall i :: 0 <= i < |samples| ==> r[i] == SavingAt(cfg, samples[i], e)
  {
    seq(|samples|, i requires 0 <= i < |samples| => SavingAt(cfg, samples[i], e))
  }

  lemma ColumnPrefix(cfg: Config, samples: seq<Sample>, e: nat)
    requires e < 3 && samples != []
    ensures Column(cfg, samples, e)[..|samples| - 1] == Column(cfg, samples[..|samples| - 1], e)
  {
  }

  /** The month's three running totals: starting from 0, the loop adds each
      sample's three savings in sample order. Each total is the sum of its
      savings column. */
  function MonthTotals(cfg: Config, samples: seq<Sample>): (r: seq<real>)
    ensures |r| == 3
    ensures forall e :: 0 <= e < 3 ==> r[e] == Sum(Column(cfg, samples, e))
    decreases |samples|
  {
    if samples == [] then [0.0, 0.0, 0.0]
    else
      var n := |samples| - 1;
      var t := MonthTotals(cfg, samples[..n]);
      ColumnPrefix(cfg, samples, 0);
      ColumnPrefix(cfg, samples, 1);
      ColumnPrefix(cfg, samples, 2);
      [t[0] + SavingAt(cfg, samples[n], 0), t[1] + SavingAt(cfg, samples[n], 1), t[2] + SavingAt(cfg, samples[n], 2)]
  }

  /** The header row of a month sheet. */
  function HeaderSheet(): (r: Worksheet)
    ensures Valid(r) && r.dimRowMax == Some(0)
    ensures forall j :: 0 <= j < 7 ==> Get(r, 0, j) == Some(Str(SampleHeaders[j]))
    ensures forall i, j {:trigger Get(r, i, j)} :: i != 0 ==> Get(r, i, j) == None
  {
    var vals := seq(7, j requires 0 <= j < 7 => Text(SampleHeaders[j]));
    assert forall j :: 0 <= j < 7 ==> SampleHeaders[j] != "" && Stored(vals[j]) == Some(Str(SampleHeaders[j]));
    WriteRowValid(EmptySheet, 0, 0, vals);
    WriteRowStores(EmptySheet, 0, 0, vals, 0);
    WriteRow(EmptySheet, 0, 0, vals)
  }

  /** Sample i goes on row i + 1 (`enumerate(month_data, start=1)`). */
  function WriteSamples(cfg: Config, ws: Worksheet, samples: seq<Sample>): (r: Worksheet)
    ensures forall i, j {:trigger Get(r, i, j)} :: i < 1 || i > |samples| ==> Get(r, i, j) == Get(ws, i, j)
    decreases |samples|
  {
    if samples == [] then ws
    else
      var n := |samples|;
      WriteRow(WriteSamples(cfg, ws, samples[..n - 1]), n, 0, SampleRow(cfg, samples[n - 1]))
  }

  /** Row i + 1 holds sample i's seven cells. */
  lemma {:induction false} SampleCells(cfg: Config, ws: Worksheet, samples: seq<Sample>, i: nat, j: nat)
    requires i < |samples| && j < 7
    ensures Get(WriteSamples(cfg, ws, samples), i + 1, j)
         == if Stored(SampleRow(cfg, samples[i])[j]).Some? then Stored(SampleRow(cfg, samples[i])[j]) else Get(ws, i + 1, j)
    decreases |samples|
  {
    var n := |samples|;
    if i < n - 1 {
      SampleCells(cfg, ws, samples[..n - 1], i, j);
      assert samples[..n - 1][i] == samples[i];
    }
  }

  /** Every data row stores a number, so `dimRowMax` reaches the last one. */
  lemma {:induction false} SamplesDimRowMax(cfg: Config, ws: Worksheet, samples: seq<Sample>)
    requires ws.dimRowMax == Some(0)
    ensures WriteSamples(cfg, ws, samples).dimRowMax == Some(|samples|)
    decreases |samples|
  {
    var n := |samples|;
    if n > 0 {
      SamplesDimRowMax(cfg, ws, samples[..n - 1]);
      WriteRowStores(WriteSamples(cfg, ws, samples[..n - 1]), n, 0, SampleRow(cfg, samples[n - 1]), 1);
    }
  }

  lemma {:induction false} SamplesValid(cfg: Config, ws: Worksheet, samples: seq<Sample>)
    requires Valid(ws)
    ensures Valid(WriteSamples(cfg, ws, samples))
    decreases |samples|
  {
    var n := |samples|;
    if n > 0 {
      SamplesValid(cfg, ws, samples[..n - 1]);
      WriteRowValid(WriteSamples(cfg, ws, samples[..n - 1]), n, 0, SampleRow(cfg, samples[n - 1]));
    }
  }

  /** A label in column 0 and a number in column 1 of `row`. */
  function LabelledTotal(ws: Worksheet, row: nat, name: string, x: real): (r: Worksheet)
    requires name != ""
    ensures Get(r, row, 0) == Some(Str(name)) && Get(r, row, 1) == Some(Num(x))
    ensures forall i, j {:trigger Get(r, i, j)} :: (i != row || j > 1) ==> Get(r, i, j) == Get(ws, i, j)
    ensures r.dimRowMax == Some(MaxRowOf(ws.dimRowMax, row))
  {
    Write(Write(ws, row, 0, Text(name)), row, 1, Number(x))
  }

  /** The totals block: label in column 0, total in column 1, on the three
      rows after the last sample. */
  function WriteTotalsBlock(ws: Worksheet, n: nat, t: seq<real>): (r: Worksheet)
    requires |t| == 3
    ensures forall e :: 0 <= e < 3 ==> Get(r, n + 1 + e, 0) == Some(Str(TotalLabels[e]))
    ensures forall e :: 0 <= e < 3 ==> Get(r, n + 1 + e, 1) == Some(Num(t[e]))
    ensures forall i, j {:trigger Get(r, i, j)} :: (i <= n || i > n + 3 || j > 1) ==> Get(r, i, j) == Get(ws, i, j)
    ensures ws.dimRowMax == Some(n) ==> r.dimRowMax == Some(n + 3)
  {
    var w1 := LabelledTotal(ws, n + 1, TotalLabels[0], t[0]);
    var w2 := LabelledTotal(w1, n + 2, TotalLabels[1], t[1]);
    LabelledTotal(w2, n + 3, TotalLabels[2], t[2])
  }

  lemma TotalsBlockValid(ws: Worksheet, n: nat, t: seq<real>)
    requires |t| == 3 && Valid(ws)
    ensures Valid(WriteTotalsBlock(ws, n, t))
  {
    var w1 := LabelledTotal(ws, n + 1, TotalLabels[0], t[0]);
    var w2 := LabelledTotal(w1, n + 2, TotalLabels[1], t[1]);
    LabelledTotalValid(ws, n + 1, TotalLabels[0], t[0]);
    LabelledTotalValid(w1, n + 2, TotalLabels[1], t[1]);
    LabelledTotalValid(w2, n + 3, TotalLabels[2], t[2]);
  }

  lemma LabelledTotalValid(ws: Worksheet, row: nat, name: string, x: real)
    requires name != "" && Valid(ws)
    ensures Valid(LabelledTotal(ws, row, name, x))
  {
    WriteValid(ws, row, 0, Text(name));
    WriteValid(Write(ws, row, 0, Text(name)), row, 1, Number(x));
  }

  /** `_process_month_data`: the sheet is added in any case but stays empty
      for a month without samples. */
  function MonthSheet(cfg: Config, samples: seq<Sample>): (r: Worksheet)
    ensures samples == [] ==> r == EmptySheet
  {
    if samples == [] then EmptySheet
    else
      var n := |samples|;
      WriteTotalsBlock(WriteSamples(cfg, HeaderSheet(), samples), n, MonthTotals(cfg, samples))
  }

  /** The totals block of a month with samples. */
  lemma MonthSheetTotals(cfg: Config, samples: seq<Sample>, e: nat)
    requires samples != [] && e < 3
    ensures Get(MonthSheet(cfg, samples), |samples| + 1 + e, 0) == Some(Str(TotalLabels[e]))
    ensures Get(MonthSheet(cfg, samples), |samples| + 1 + e, 1) == Some(Num(Sum(Column(cfg, samples, e))))
  {
  }

  /** Column 4 + e of row i + 1 holds saving e of sample i. */
  lemma MonthSheetSaving(cfg: Config, samples: seq<Sample>, e: nat, i: nat)
    requires e < 3 && i < |samples|
    ensures Get(MonthSheet(cfg, samples), i + 1, 4 + e) == Some(Num(Column(cfg, samples, e)[i]))
  {
    SampleCells(cfg, HeaderSheet(), samples, i, 4 + e);
    SampleRowSaving(cfg, samples[i], e);
  }

  /** Cell 4 + e of a sample's row is its saving e, a number. */
  lemma SampleRowSaving(cfg: Config, s: Sample, e: nat)
    requires e < 3
    ensures Stored(SampleRow(cfg, s)[4 + e]) == Some(Num(SavingAt(cfg, s, e)))
  {
  }

  /** Each total on the sheet is the sum of the column of savings written
      above it, one number per sample. */
  lemma MonthSheetColumns(cfg: Config, samples: seq<Sample>, e: nat)
    requires samples != [] && e < 3
    ensures var ws := MonthSheet(cfg, samples);
      && Get(ws, |samples| + 1 + e, 1) == Some(Num(Sum(Column(cfg, samples, e))))
      && forall i :: 0 <= i < |samples| ==> Get(ws, i + 1, 4 + e) == Some(Num(Column(cfg, samples, e)[i]))
  {
    MonthSheetTotals(cfg, samples, e);
    forall i | 0 <= i < |samples|
      ensures Get(MonthSheet(cfg, samples), i + 1, 4 + e) == Some(Num(Column(cfg, samples, e)[i]))
    {
      MonthSheetSaving(cfg, samples, e, i);
    }
  }

  /** Row i + 1 carries sample i: its timestamp (when not blank) and its
      three readings. */
  lemma MonthSheetSample(cfg: Config, samples: seq<Sample>, i: nat)
    requires i < |samples|
    ensures var ws := MonthSheet(cfg, samples);
      && Get(ws, i + 1, 0) == (if samples[i].timestamp == "" then None else Some(Str(samples[i].timestamp)))
      && Get(ws, i + 1, 1) == Some(Num(samples[i].thdI))
      && Get(ws, i + 1, 2) == Some(Num(samples[i].thdV))
      && Get(ws, i + 1, 3) == Some(Num(samples[i].kva))
  {
    SampleCells(cfg, HeaderSheet(), samples, i, 0);
    SampleCells(cfg, HeaderSheet(), samples, i, 1);
    SampleCells(cfg, HeaderSheet(), samples, i, 2);
    SampleCells(cfg, HeaderSheet(), samples, i, 3);
    SampleRowReadings(cfg, samples[i]);
  }

  /** The first four cells of a sample's row: its timestamp (nothing when
      blank) and its three readings. */
  lemma SampleRowReadings(cfg: Config, s: Sample)
    ensures Stored(SampleRow(cfg, s)[0]) == if s.timestamp == "" then None else Some(Str(s.timestamp))
    ensures Stored(SampleRow(cfg, s)[1]) == Some(Num(s.thdI))
    ensures Stored(SampleRow(cfg, s)[2]) == Some(Num(s.thdV))
    ensures Stored(SampleRow(cfg, s)[3]) == Some(Num(s.kva))
  {
  }

  /** openpyxl sees the sheet end on the last totals row: `max_row` is the
      number of samples plus 4. */
  lemma MonthSheetMaxRow(cfg: Config, samples: seq<Sample>)
    requires samples != []
    ensures Valid(MonthSheet(cfg, samples))
    ensures MaxRow(MonthSheet(cfg, samples)) == |samples| + 4
  {
    var ws := WriteSamples(cfg, HeaderSheet(), samples);
    SamplesValid(cfg, HeaderSheet(), samples);
    SamplesDimRowMax(cfg, HeaderSheet(), samples);
    TotalsBlockValid(ws, |samples|, MonthTotals(cfg, samples));
  }

  // ---------------------------------------------------------------------------
  // Reading a saved month sheet back (`_read_month_data`)
  // ---------------------------------------------------------------------------

  /** Which rows the reader takes: the script's `max_row - 3 .. max_row - 1`,
      or the rows the totals actually occupy, `max_row - 2 .. max_row`. */
  datatype Reader = AsWritten | Fixed

  /** The first 1-based row read. */
  function TopRow(rd: Reader, ws: Worksheet): int
  {
    MaxRow(ws) - (if rd.AsWritten? then 3 else 2)
  }

  /** Column 2 (1-based) of three consecutive rows from the top row; a row
      below 1 raises ValueError. */
  function ReadMonth(rd: Reader, ws: Worksheet): (r: Result<seq<Option<Cell>>>)
    ensures r.Ok? <==> TopRow(rd, ws) >= 1
    ensures r.Err? ==> r.error == ValueError
    ensures r.Ok? ==> |r.value| == 3 && forall e :: 0 <= e < 3 ==> r.value[e] == Get(ws, TopRow(rd, ws) - 1 + e, 1)
  {
    var top := TopRow(rd, ws);
    if top < 1 then Err(ValueError)
    else Ok([CellValue(ws, top, 2).value, CellValue(ws, top + 1, 2).value, CellValue(ws, top + 2, 2).value])
  }

  /** A month without samples left an empty sheet, which neither reader can
      read. */
  lemma ReadEmptyMonth(rd: Reader, cfg: Config)
    ensures ReadMonth(rd, MonthSheet(cfg, [])) == Err(ValueError)
  {
  }

  /** The corrected reader takes back the three totals the month sheet holds. */
  lemma ReadFixedTotals(cfg: Config, samples: seq<Sample>)
    requires samples != []
    ensures ReadMonth(Fixed, MonthSheet(cfg, samples)) == Ok(Cells(MonthTotals(cfg, samples)))
  {
    var ws := MonthSheet(cfg, samples);
    MonthSheetMaxRow(cfg, samples);
    MonthSheetTotals(cfg, samples, 0);
    MonthSheetTotals(cfg, samples, 1);
    MonthSheetTotals(cfg, samples, 2);
    ReadThree(Fixed, ws, MonthTotals(cfg, samples));
  }

  /** As written the reader is one row too high: it takes the last sample's
      THD_I as the non-compliant energy, the energy total as the losses and
      the losses total as the cost savings. */
  lemma ReadAsWrittenShifted(cfg: Config, samples: seq<Sample>)
    requires samples != []
    ensures ReadMonth(AsWritten, MonthSheet(cfg, samples))
         == Ok(Cells(Shifted(cfg, samples)))
  {
    var ws := MonthSheet(cfg, samples);
    var n := |samples|;
    MonthSheetMaxRow(cfg, samples);
    MonthSheetSample(cfg, samples, n - 1);
    MonthSheetTotals(cfg, samples, 0);
    MonthSheetTotals(cfg, samples, 1);
    ReadThree(AsWritten, ws, Shifted(cfg, samples));
  }

  /** Three numbers in column 2 from the top row are read as they are. */
  lemma ReadThree(rd: Reader, ws: Worksheet, t: seq<real>)
    requires |t| == 3 && TopRow(rd, ws) >= 1
    requires Get(ws, TopRow(rd, ws) - 1, 1) == Some(Num(t[0]))
    requires Get(ws, TopRow(rd, ws), 1) == Some(Num(t[1]))
    requires Get(ws, TopRow(rd, ws) + 1, 1) == Some(Num(t[2]))
    ensures ReadMonth(rd, ws) == Ok(Cells(t))
  {
    var r := ReadMonth(rd, ws).value;
    assert r[0] == Cells(t)[0] && r[1] == Cells(t)[1] && r[2] == Cells(t)[2];
    assert r == Cells(t);
  }

  /** The numbers as stored cells. */
  function Cells(xs: seq<real>): (r: seq<Option<Cell>>)
    ensures |r| == |xs| && forall e :: 0 <= e < |xs| ==> r[e] == Some(Num(xs[e]))
  {
    seq(|xs|, e requires 0 <= e < |xs| => Some(Num(xs[e])))
  }

  /** What the reader as written takes from a month with samples. */
  function Shifted(cfg: Config, samples: seq<Sample>): (r: seq<real>)
    requires samples != []
    ensures |r| == 3
  {
    [samples[|samples| - 1].thdI, Sum(Column(cfg, samples, 0)), Sum(Column(cfg, samples, 1))]
  }

  // ---------------------------------------------------------------------------
  // The yearly summary (`_aggregate_yearly_savings` and its helpers)
  // ---------------------------------------------------------------------------

  /** `float(v) if v is not None else 0`; None where `float` raises
      ValueError. */
  function FloatOf(P: Parsers, c: Option<Cell>): (r: Option<real>)
    ensures c.None? ==> r == Some(0.0)
    ensures c.Some? && c.value.Num? ==> r == Some(c.value.x)
    ensures c.Some? && c.value.Str? ==> r == P.toFloat(c.value.s)
  {
    match c
    case None => Some(0.0)
    case Some(Num(x)) => Some(x)
    case Some(Str(s)) => P.toFloat(s)
  }

  /** How many leading cells `float` accepts. */
  function Accepted(P: Parsers, cells: seq<Option<Cell>>): (k: nat)
    ensures k <= |cells|
    ensures forall j :: 0 <= j < k ==> FloatOf(P, cells[j]).Some?
    ensures k < |cells| ==> FloatOf(P, cells[k]).None?
    decreases |cells|
  {
    if cells == [] || FloatOf(P, cells[0]).None? then 0 else 1 + Accepted(P, cells[1..])
  }

  /** `_update_yearly_totals`: the three fields are added in order; the
      ValueError of an unparsable one is caught, so the fields before it are
      updated and it and the ones after it are not. */
  function UpdateTotals(P: Parsers, totals: seq<real>, cells: seq<Option<Cell>>): (r: seq<real>)
    requires |totals| == |cells|
    ensures |r| == |totals|
    ensures forall j :: 0 <= j < |r| ==>
      r[j] == if j < Accepted(P, cells) then totals[j] + FloatOf(P, cells[j]).value else totals[j]
    decreases |cells|
  {
    if cells == [] then totals
    else
      match FloatOf(P, cells[0])
      case None => totals
      case Some(x) => [totals[0] + x] + UpdateTotals(P, totals[1..], cells[1..])
  }

  /** Numbers are added as they are. */
  lemma UpdateWithNumbers(P: Parsers, totals: seq<real>, xs: seq<real>)
    requires |totals| == |xs|
    ensures UpdateTotals(P, totals, Cells(xs)) == Summary.AddTo(totals, xs)
  {
    var cells := Cells(xs);
    AcceptedNumbers(P, xs);
    assert forall j :: 0 <= j < |xs| ==> FloatOf(P, cells[j]) == Some(xs[j]);
  }

  lemma {:induction false} AcceptedNumbers(P: Parsers, xs: seq<real>)
    ensures Accepted(P, Cells(xs)) == |xs|
    decreases |xs|
  {
    if xs != [] {
      assert Cells(xs)[1..] == Cells(xs[1..]);
      AcceptedNumbers(P, xs[1..]);
    }
  }

  /** The workbook saved by an earlier run, month sheets by month name, or
      None when there is no such file. */
  type Saved = Option<map<string, Worksheet>>

  /** The three cells read for a month, or None when the month is skipped:
      no saved file (FileNotFoundError), no sheet for the month (KeyError) or
      a sheet too short to read (ValueError), each caught and logged. */
  function MonthCells(rd: Reader, saved: Saved, month: string): (r: Option<seq<Option<Cell>>>)
    ensures r.Some? <==> saved.Some? && month in saved.value && ReadMonth(rd, saved.value[month]).Ok?
    ensures r.Some? ==> r.value == ReadMonth(rd, saved.value[month]).value && |r.value| == 3
  {
    if saved.Some? && month in saved.value then
      match ReadMonth(rd, saved.value[month])
      case Ok(cells) => Some(cells)
      case Err(_) => None
    else None
  }

  /** The summary rows after the first `n` months: a month that is read
      gets its name, then the three cells as read, on row m + 1. */
  function SummaryRows(rd: Reader, saved: Saved, n: nat): (r: Worksheet)
    requires n <= |Summary.Months|
  {
    if n == 0 then Summary.WriteHeader(TotalLabels)
    else
      var prev := SummaryRows(rd, saved, n - 1);
      match MonthCells(rd, saved, Summary.Months[n - 1])
      case None => prev
      case Some(cells) => Summary.MonthRow(prev, n - 1, Seqs.Map(cells, AsValue))
  }

  /** The running totals after the first `n` months, each month read added
      in by `_update_yearly_totals`. */
  function Totals(P: Parsers, rd: Reader, saved: Saved, n: nat): (r: seq<real>)
    requires n <= |Summary.Months|
    ensures |r| == 3
  {
    if n == 0 then Summary.Zeros(3)
    else
      var prev := Totals(P, rd, saved, n - 1);
      match MonthCells(rd, saved, Summary.Months[n - 1])
      case None => prev
      case Some(cells) => UpdateTotals(P, prev, cells)
  }

  /** The finished summary sheet: the twelve months, then the totals row.
      (The script writes a month's row just before adding its totals; the
      two do not depend on each other.) */
  function YearSummary(P: Parsers, rd: Reader, saved: Saved): (r: Worksheet)
    ensures Get(r, Summary.TotalsRow, 0) == Some(Str("Yearly Totals"))
    ensures forall e :: 0 <= e < 3 ==> Get(r, Summary.TotalsRow, e + 1) == Some(Num(Totals(P, rd, saved, 12)[e]))
  {
    Summary.WriteTotals(SummaryRows(rd, saved, |Summary.Months|), Totals(P, rd, saved, |Summary.Months|))
  }

  /** Nothing is written below the months processed so far. */
  lemma {:induction false} YearEmptyBelow(rd: Reader, saved: Saved, n: nat, i: int)
    requires n <= |Summary.Months| && i > n
    ensures Get(SummaryRows(rd, saved, n), i, 0) == None
  {
    if n > 0 {
      YearEmptyBelow(rd, saved, n - 1, i);
    }
  }

  /** Month m has its summary row exactly when it was read. */
  lemma {:induction false} YearRows(rd: Reader, saved: Saved, n: nat, m: nat)
    requires n <= |Summary.Months| && m < n
    ensures Get(SummaryRows(rd, saved, n), m + 1, 0)
         == if MonthCells(rd, saved, Summary.Months[m]).Some? then Some(Str(Summary.Months[m])) else None
  {
    if m < n - 1 {
      YearRows(rd, saved, n - 1, m);
    } else {
      YearEmptyBelow(rd, saved, n - 1, m + 1);
    }
  }

  /** Entry e of every month read among the first n, in month order. */
  function ReadColumn(P: Parsers, rd: Reader, saved: Saved, n: nat, e: nat): seq<real>
    requires n <= |Summary.Months| && e < 3
  {
    if n == 0 then []
    else
      ReadColumn(P, rd, saved, n - 1, e) +
        match MonthCells(rd, saved, Summary.Months[n - 1])
        case None => []
        case Some(cells) => [FloatOf(P, cells[e]).GetOr(0.0)]
  }

  /** Every cell read among the first n months is accepted by `float`. */
  predicate AllFloat(P: Parsers, rd: Reader, saved: Saved, n: nat)
    requires n <= |Summary.Months|
  {
    forall m :: 0 <= m < n && MonthCells(rd, saved, Summary.Months[m]).Some? ==>
      Accepted(P, MonthCells(rd, saved, Summary.Months[m]).value) == 3
  }

  /** What a month adds to total `e`: nothing when it is skipped or when
      `float` gave up before field `e`. */
  function Added(P: Parsers, cells: Option<seq<Option<Cell>>>, e: nat): real
    requires cells.Some? ==> |cells.value| == 3
    requires e < 3
  {
    match cells
    case None => 0.0
    case Some(c) => if e < Accepted(P, c) then FloatOf(P, c[e]).value else 0.0
  }

  lemma TotalsStep(P: Parsers, rd: Reader, saved: Saved, n: nat, e: nat)
    requires 0 < n <= |Summary.Months| && e < 3
    ensures Totals(P, rd, saved, n)[e]
         == Totals(P, rd, saved, n - 1)[e] + Added(P, MonthCells(rd, saved, Summary.Months[n - 1]), e)
  {
  }

  /** Summing one more month of a column. */
  lemma SumStep(prev: seq<real>, more: seq<real>, x: real)
    requires more == [] || more == [x]
    ensures Sum(prev + more) == Sum(prev) + (if more == [] then 0.0 else x)
  {
    if more == [] {
      assert prev + more == prev;
    } else {
      SumAppend(prev, more);
      SumSingle(x);
    }
  }

  /** One more month adds its entry to the column when it was read. */
  lemma ReadColumnStep(P: Parsers, rd: Reader, saved: Saved, n: nat, e: nat)
    requires 0 < n <= |Summary.Months| && e < 3
    ensures var cells := MonthCells(rd, saved, Summary.Months[n - 1]);
      ReadColumn(P, rd, saved, n, e) == ReadColumn(P, rd, saved, n - 1, e)
        + if cells.Some? then [FloatOf(P, cells.value[e]).GetOr(0.0)] else []
  {
  }

  /** When every cell read is a number (or a blank, counted 0, or a string
      `float` accepts), each yearly total is the sum of its column over the
      months read. */
  lemma {:induction false} YearTotals(P: Parsers, rd: Reader, saved: Saved, n: nat, e: nat)
    requires n <= |Summary.Months| && e < 3
    requires AllFloat(P, rd, saved, n)
    ensures Totals(P, rd, saved, n)[e] == Sum(ReadColumn(P, rd, saved, n, e))
  {
    if n > 0 {
      assert AllFloat(P, rd, saved, n - 1);
      YearTotals(P, rd, saved, n - 1, e);
      TotalsStep(P, rd, saved, n, e);
      var cells := MonthCells(rd, saved, Summary.Months[n - 1]);
      var x := if cells.Some? then FloatOf(P, cells.value[e]).GetOr(0.0) else 0.0;
      var more := if cells.Some? then [x] else [];
      ReadColumnStep(P, rd, saved, n, e);
      SumStep(ReadColumn(P, rd, saved, n - 1, e), more, x);
    }
  }

  /** An unparsable string stops the update of that month at its field:
      the totals before it have the month added, it and the ones after it do
      not. */
  lemma PartialUpdate(P: Parsers, rd: Reader, saved: Saved, n: nat)
    requires 0 < n <= |Summary.Months|
    requires MonthCells(rd, saved, Summary.Months[n - 1]).Some?
    ensures var cells := MonthCells(rd, saved, Summary.Months[n - 1]).value;
      var k := Accepted(P, cells);
      && (forall e :: 0 <= e < k ==> Totals(P, rd, saved, n)[e] == Totals(P, rd, saved, n - 1)[e] + FloatOf(P, cells[e]).value)
      && (forall e :: k <= e < 3 ==> Totals(P, rd, saved, n)[e] == Totals(P, rd, saved, n - 1)[e])
  {
  }

  // ---------------------------------------------------------------------------
  // The whole run, and a second run over the first run's workbook
  // ---------------------------------------------------------------------------

  /** The month sheets of one run, by month name. */
  function MonthSheets(cfg: Config, g: map<string, seq<Sample>>): (r: map<string, Worksheet>)
    ensures forall m :: m in Summary.Months <==> m in r
    ensures forall m :: m in r ==> r[m] == MonthSheet(cfg, MonthData(g, m))
  {
    map m | m in Summary.Months :: MonthSheet(cfg, MonthData(g, m))
  }

  /** `calculate_harmonic_savings`: the month sheets from the loaded samples
      and the summary from the previously saved workbook. An exception while
      loading ends the run before any sheet is written. */
  function RunHarmonics(P: Parsers, rd: Reader, cfg: Config, file: Option<seq<Row>>, saved: Saved): (r: Result<(Worksheet, map<string, Worksheet>)>)
    ensures r.Ok? <==> LoadHarmonicData(P, file).Ok?
    ensures r.Ok? ==> r.value.1 == MonthSheets(cfg, LoadHarmonicData(P, file).value)
  {
    var g :- LoadHarmonicData(P, file);
    Ok((YearSummary(P, rd, saved), MonthSheets(cfg, g)))
  }

  /** What a reader finds on the sheet of a month with samples. */
  function Found(rd: Reader, cfg: Config, samples: seq<Sample>): (r: seq<real>)
    requires samples != []
    ensures |r| == 3
  {
    if rd.Fixed? then MonthTotals(cfg, samples) else Shifted(cfg, samples)
  }

  /** Entry e of what the reader finds, over the months with samples among
      the first n. */
  function FoundColumn(rd: Reader, cfg: Config, g: map<string, seq<Sample>>, n: nat, e: nat): seq<real>
    requires n <= |Summary.Months| && e < 3
  {
    if n == 0 then []
    else
      var samples := MonthData(g, Summary.Months[n - 1]);
      FoundColumn(rd, cfg, g, n - 1, e) + (if samples == [] then [] else [Found(rd, cfg, samples)[e]])
  }

  /** Over a workbook saved from samples `g`, a month is read exactly when
      it has samples, and what is read is what the reader finds. */
  lemma ReadSavedMonth(rd: Reader, cfg: Config, g: map<string, seq<Sample>>, m: nat)
    requires m < |Summary.Months|
    ensures var samples := MonthData(g, Summary.Months[m]);
      MonthCells(rd, Some(MonthSheets(cfg, g)), Summary.Months[m])
        == if samples == [] then None else Some(Cells(Found(rd, cfg, samples)))
  {
    var samples := MonthData(g, Summary.Months[m]);
    if samples == [] {
      ReadEmptyMonth(rd, cfg);
    } else if rd.Fixed? {
      ReadFixedTotals(cfg, samples);
    } else {
      ReadAsWrittenShifted(cfg, samples);
    }
  }

  /** Totals over a workbook saved from samples `g`: each is the sum, over
      the months with samples, of what the reader finds. */
  lemma {:induction false} YearOverSaved(P: Parsers, rd: Reader, cfg: Config, g: map<string, seq<Sample>>, n: nat, e: nat)
    requires n <= |Summary.Months| && e < 3
    ensures Totals(P, rd, Some(MonthSheets(cfg, g)), n)[e] == Sum(FoundColumn(rd, cfg, g, n, e))
  {
    if n > 0 {
      var saved := Some(MonthSheets(cfg, g));
      YearOverSaved(P, rd, cfg, g, n - 1, e);
      TotalsStep(P, rd, saved, n, e);
      SavedMonthAdds(P, rd, cfg, g, n - 1, e);
      FoundColumnStep(rd, cfg, g, n, e);
    }
  }

  lemma FoundColumnStep(rd: Reader, cfg: Config, g: map<string, seq<Sample>>, n: nat, e: nat)
    requires 0 < n <= |Summary.Months| && e < 3
    ensures var samples := MonthData(g, Summary.Months[n - 1]);
      Sum(FoundColumn(rd, cfg, g, n, e)) == Sum(FoundColumn(rd, cfg, g, n - 1, e)) + if samples == [] then 0.0 else Found(rd, cfg, samples)[e]
  {
    var samples := MonthData(g, Summary.Months[n - 1]);
    var x := if samples == [] then 0.0 else Found(rd, cfg, samples)[e];
    var more := if samples == [] then [] else [x];
    assert FoundColumn(rd, cfg, g, n, e) == FoundColumn(rd, cfg, g, n - 1, e) + more;
    SumStep(FoundColumn(rd, cfg, g, n - 1, e), more, x);
  }

  /** A month of a saved workbook adds what the reader finds on it. */
  lemma SavedMonthAdds(P: Parsers, rd: Reader, cfg: Config, g: map<string, seq<Sample>>, m: nat, e: nat)
    requires m < |Summary.Months| && e < 3
    ensures var samples := MonthData(g, Summary.Months[m]);
      Added(P, MonthCells(rd, Some(MonthSheets(cfg, g)), Summary.Months[m]), e)
        == if samples == [] then 0.0 else Found(rd, cfg, samples)[e]
  {
    var samples := MonthData(g, Summary.Months[m]);
    ReadSavedMonth(rd, cfg, g, m);
    if samples != [] {
      AcceptedNumbers(P, Found(rd, cfg, samples));
    }
  }

  /** A second run over the workbook of a first run on the same file: with
      the corrected reader, each yearly total is the sum of that total over
      the months with samples. */
  lemma SecondRunFixed(P: Parsers, cfg: Config, file: Option<seq<Row>>, saved: Saved, e: nat)
    requires e < 3 && RunHarmonics(P, Fixed, cfg, file, saved).Ok?
    ensures var g := LoadHarmonicData(P, file).value;
      var second := RunHarmonics(P, Fixed, cfg, file, Some(RunHarmonics(P, Fixed, cfg, file, saved).value.1));
      && second.Ok?
      && Get(second.value.0, Summary.TotalsRow, e + 1) == Some(Num(Sum(FoundColumn(Fixed, cfg, g, 12, e))))
  {
    YearOverSaved(P, Fixed, cfg, LoadHarmonicData(P, file).value, 12, e);
  }

  /** The same second run with the reader as written: the yearly
      "non-compliant energy" is the sum of each month's last THD_I reading,
      and the energy total lands in the losses column. */
  lemma SecondRunAsWritten(P: Parsers, cfg: Config, file: Option<seq<Row>>, saved: Saved, e: nat)
    requires e < 3 && RunHarmonics(P, AsWritten, cfg, file, saved).Ok?
    ensures var g := LoadHarmonicData(P, file).value;
      var second := RunHarmonics(P, AsWritten, cfg, file, Some(RunHarmonics(P, AsWritten, cfg, file, saved).value.1));
      && second.Ok?
      && Get(second.value.0, Summary.TotalsRow, e + 1) == Some(Num(Sum(FoundColumn(AsWritten, cfg, g, 12, e))))
  {
    YearOverSaved(P, AsWritten, cfg, LoadHarmonicData(P, file).value, 12, e);
  }

  /** One non-compliant sample (THD_I 10 against a limit of 5, 12 kVA, loss
      factor and price 1): the corrected reader finds totals 1, 0.1 and 0.1,
      the reader as written finds 10, 1 and 0.1. */
  lemma ReadersDisagree()
    ensures var cfg := Config(5.0, 5.0, 1.0, 1.0);
      var s := [Sample("t", 10.0, 0.0, 12.0)];
      && ReadMonth(Fixed, MonthSheet(cfg, s)) == Ok(Cells([1.0, 0.1, 0.1]))
      && ReadMonth(AsWritten, MonthSheet(cfg, s)) == Ok(Cells([10.0, 1.0, 0.1]))
  {
    var cfg := Config(5.0, 5.0, 1.0, 1.0);
    var s := [Sample("t", 10.0, 0.0, 12.0)];
    assert SavingsOf(cfg, s[0]) == Savings(1.0, 0.1, 0.1);
    forall e | 0 <= e < 3 ensures Sum(Column(cfg, s, e)) == [1.0, 0.1, 0.1][e] {
      assert Column(cfg, s, e) == [SavingAt(cfg, s[0], e)];
      SumSingle(SavingAt(cfg, s[0], e));
    }
    ReadFixedTotals(cfg, s);
    ReadAsWrittenShifted(cfg, s);
    assert MonthTotals(cfg, s) == [1.0, 0.1, 0.1];
    assert Shifted(cfg, s) == [10.0, 1.0, 0.1];
  }
}
