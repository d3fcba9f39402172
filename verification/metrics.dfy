/** The month figures `_write_calculations_to_worksheet` computes in the
    genset and frequency reports, from the month file as `csv.reader` rows
    (header first). */
module Metrics {
  import opened Py
  import Seqs

  const EnergySaving: string := "Energy Saving (kWh)"

  /** The configured rates: `cost_fuel_plus_MTCE` and `cost_per_outage`. */
  datatype Rates = Rates(fuel: real, perOutage: real)

  /** What one month contributes: kWh saved, outages, fuel savings, outage
      savings and the month total. */
  datatype Figures = Figures(kwh: real, outages: int, fuelSavings: real, outageSavings: real, total: real)

  /** The index the header scan settles on: the first cell equal to `name`. */
  function FindColumn(header: seq<string>, name: string): (r: Option<nat>)
    ensures r.None? <==> name !in header
    ensures r.Some? ==> r.value < |header| && header[r.value] == name
    ensures r.Some? ==> forall k :: 0 <= k < r.value ==> header[k] != name
  {
    if header == [] then None
    else if header[0] == name then Some(0)
    else
      match FindColumn(header[1..], name)
      case None => None
      case Some(k) => Some(k + 1)
  }

  /** Every data row reaches column `c`, so `row[c]` cannot raise. */
  predicate Covers(rows: seq<seq<string>>, c: nat)
  {
    forall i :: 0 <= i < |rows| ==> c < |rows[i]|
  }

  /** Column `c` of every data row. */
  function Column(rows: seq<seq<string>>, c: nat): (r: seq<string>)
    requires Covers(rows, c)
    ensures |r| == |rows|
    ensures forall i :: 0 <= i < |rows| ==> r[i] == rows[i][c]
  {
    seq(|rows|, i requires 0 <= i < |rows| => rows[i][c])
  }

  /** A cell Python treats as true: a non-empty string. */
  predicate Filled(s: string)
  {
    s != ""
  }

  /** The non-blank cells, in order. */
  function NonBlank(cells: seq<string>): seq<string>
  {
    Seqs.Filter(cells, Filled)
  }

  predicate AllParse(P: Parsers, cells: seq<string>)
  {
    forall i :: 0 <= i < |cells| ==> P.toFloat(cells[i]).Some?
  }

  /** `float(s)` of every cell. */
  function Floats(P: Parsers, cells: seq<string>): (r: seq<real>)
    requires AllParse(P, cells)
    ensures |r| == |cells|
    ensures forall i :: 0 <= i < |cells| ==> r[i] == P.toFloat(cells[i]).value
  {
    seq(|cells|, i requires 0 <= i < |cells| => P.toFloat(cells[i]).value)
  }

  /** The generator behind `total_kwh_saved`, one data row at a time: a row
      too short for column `c` raises IndexError, a non-blank cell that does
      not parse raises ValueError, the first such row decides. */
  function KwhSum(P: Parsers, rows: seq<seq<string>>, c: nat): (r: Result<real>)
    ensures r.Err? ==> r.error == IndexError || r.error == ValueError
    decreases |rows|
  {
    if rows == [] then Ok(0.0)
    else
      var last := rows[|rows| - 1];
      match KwhSum(P, rows[..|rows| - 1], c)
      case Err(e) => Err(e)
      case Ok(acc) =>
        if c >= |last| then Err(IndexError)
        else if last[c] == "" then Ok(acc)
        else match P.toFloat(last[c])
          case None => Err(ValueError)
          case Some(x) => Ok(acc + x)
  }

  lemma ColumnInit(rows: seq<seq<string>>, c: nat)
    requires |rows| > 0 && Covers(rows, c)
    ensures Covers(rows[..|rows| - 1], c)
    ensures Column(rows, c) == Column(rows[..|rows| - 1], c) + [rows[|rows| - 1][c]]
  {
  }

  lemma NonBlankOne(s: string)
    ensures NonBlank([s]) == if s == "" then [] else [s]
  {
    assert [s][1..] == [];
  }

  /** Appending a data row appends its cell to the non-blank cells when
      the cell is non-blank. */
  lemma NonBlankStep(rows: seq<seq<string>>, c: nat)
    requires |rows| > 0 && Covers(rows, c)
    ensures Covers(rows[..|rows| - 1], c)
    ensures NonBlank(Column(rows, c)) == NonBlank(Column(rows[..|rows| - 1], c))
              + (if rows[|rows| - 1][c] == "" then [] else [rows[|rows| - 1][c]])
  {
    var s := rows[|rows| - 1][c];
    ColumnInit(rows, c);
    Seqs.FilterConcat(Column(rows[..|rows| - 1], c), [s], Filled);
    NonBlankOne(s);
  }

  lemma AllParseAppend(P: Parsers, xs: seq<string>, s: string)
    ensures AllParse(P, xs + [s]) <==> AllParse(P, xs) && P.toFloat(s).Some?
  {
    assert (xs + [s])[|xs|] == s;
    assert forall i :: 0 <= i < |xs| ==> (xs + [s])[i] == xs[i];
  }

  lemma FloatsAppend(P: Parsers, xs: seq<string>, s: string)
    requires AllParse(P, xs) && P.toFloat(s).Some?
    ensures AllParse(P, xs + [s])
    ensures Sum(Floats(P, xs + [s])) == Sum(Floats(P, xs)) + P.toFloat(s).value
  {
    AllParseAppend(P, xs, s);
    var x := P.toFloat(s).value;
    assert Floats(P, xs + [s]) == Floats(P, xs) + [x];
    SumAppend(Floats(P, xs), [x]);
    SumSingle(x);
  }

  /** The sum succeeds exactly when every row reaches the column and every
      non-blank cell parses, and is then the sum of the parsed non-blank
      cells: blank cells are skipped, not counted as 0 or errors. */
  lemma {:induction false} KwhSumIsSum(P: Parsers, rows: seq<seq<string>>, c: nat)
    ensures KwhSum(P, rows, c).Ok? <==> Covers(rows, c) && AllParse(P, NonBlank(Column(rows, c)))
    ensures KwhSum(P, rows, c).Ok? ==> KwhSum(P, rows, c).value == Sum(Floats(P, NonBlank(Column(rows, c))))
    decreases |rows|
  {
    if rows != [] {
      var init, last := rows[..|rows| - 1], rows[|rows| - 1];
      KwhSumIsSum(P, init, c);
      if Covers(rows, c) {
        NonBlankStep(rows, c);
        var nb := NonBlank(Column(init, c));
        if last[c] != "" {
          AllParseAppend(P, nb, last[c]);
          if AllParse(P, nb) && P.toFloat(last[c]).Some? {
            FloatsAppend(P, nb, last[c]);
            assert NonBlank(Column(rows, c)) == nb + [last[c]];
          }
        } else {
          assert NonBlank(Column(rows, c)) == nb;
          assert KwhSum(P, rows, c) == KwhSum(P, init, c);
        }
      } else if Covers(init, c) {
        assert c >= |last|;
      }
    }
  }

  /** `len([row for row in reader[1:] if row[c]]) - 1`: the non-blank cells
      less one, as written. */
  function Outages(rows: seq<seq<string>>, c: nat): (r: int)
    requires Covers(rows, c)
    ensures r >= -1
    ensures r == -1 <==> forall i :: 0 <= i < |rows| ==> rows[i][c] == ""
  {
    var nb := NonBlank(Column(rows, c));
    assert nb == [] <==> forall i :: 0 <= i < |rows| ==> rows[i][c] == "" by {
      if nb != [] {
        assert nb[0] in Column(rows, c) && Filled(nb[0]);
      }
      forall i | 0 <= i < |rows| && rows[i][c] != "" ensures nb != [] {
        assert Column(rows, c)[i] in nb;
      }
    }
    |nb| - 1
  }

  /** `_write_calculations_to_worksheet`'s figures for one month. An empty
      file raises IndexError at `reader[0]`; without the energy column there
      are no figures (Ok(None)); otherwise the kWh sum may raise. */
  function MonthFigures(P: Parsers, rates: Rates, reader: seq<seq<string>>): (r: Result<Option<Figures>>)
    ensures reader == [] ==> r == Err(IndexError)
    ensures r == Ok(None) <==> reader != [] && EnergySaving !in reader[0]
    ensures r.Ok? && r.value.Some? ==> var f := r.value.value;
      && f == Price(rates, f.kwh, f.outages)
      && f.outages >= -1
  {
    if reader == [] then Err(IndexError)
    else
      match FindColumn(reader[0], EnergySaving)
      case None => Ok(None)
      case Some(c) =>
        var rows := reader[1..];
        match KwhSum(P, rows, c)
        case Err(e) => Err(e)
        case Ok(kwh) =>
          KwhSumIsSum(P, rows, c);
          Ok(Some(Price(rates, kwh, Outages(rows, c))))
  }

  /** The month's savings at the configured rates. */
  function Price(rates: Rates, kwh: real, outages: int): (f: Figures)
    ensures f.kwh == kwh && f.outages == outages
    ensures f.fuelSavings + f.outageSavings == f.total
  {
    var fuel := kwh * rates.fuel;
    var outageSavings := (outages as real) * rates.perOutage;
    Figures(kwh, outages, fuel, outageSavings, fuel + outageSavings)
  }

  /** The pricing at the configured rates: fuel savings per kWh, outage
      savings per outage, and their sum. */
  lemma PriceRates(rates: Rates, kwh: real, outages: int)
    ensures var f := Price(rates, kwh, outages);
      && f.fuelSavings == kwh * rates.fuel
      && f.outageSavings == (outages as real) * rates.perOutage
      && f.total == kwh * rates.fuel + (outages as real) * rates.perOutage
  {
  }

  /** The figures in terms of the energy column alone: kWh is the sum of its
      parsed non-blank cells and outages their count less one. */
  lemma MonthFiguresFromColumn(P: Parsers, rates: Rates, reader: seq<seq<string>>)
    requires MonthFigures(P, rates, reader).Ok? && MonthFigures(P, rates, reader).value.Some?
    ensures var c := FindColumn(reader[0], EnergySaving).value;
      && Covers(reader[1..], c)
      && AllParse(P, NonBlank(Column(reader[1..], c)))
      && MonthFigures(P, rates, reader).value.value.kwh == Sum(Floats(P, NonBlank(Column(reader[1..], c))))
      && MonthFigures(P, rates, reader).value.value.outages == |NonBlank(Column(reader[1..], c))| - 1
  {
    KwhSumIsSum(P, reader[1..], FindColumn(reader[0], EnergySaving).value);
  }

  /** A month with an energy column but no non-blank cell reports -1 outages
      and a negative outage saving for any positive per-outage cost. */
  lemma AllBlankMonth(P: Parsers, rates: Rates, reader: seq<seq<string>>)
    requires MonthFigures(P, rates, reader).Ok? && MonthFigures(P, rates, reader).value.Some?
    requires var c := FindColumn(reader[0], EnergySaving).value;
      forall i :: 1 <= i < |reader| ==> c < |reader[i]| && reader[i][c] == ""
    ensures MonthFigures(P, rates, reader).value.value.outages == -1
    ensures MonthFigures(P, rates, reader).value.value.kwh == 0.0
    ensures MonthFigures(P, rates, reader).value.value.outageSavings == -rates.perOutage
  {
    var c := FindColumn(reader[0], EnergySaving).value;
    var rows := reader[1..];
    KwhSumIsSum(P, rows, c);
    assert forall i :: 0 <= i < |rows| ==> rows[i] == reader[i + 1];
    var nb := NonBlank(Column(rows, c));
    assert |nb| == 0;
    assert Floats(P, nb) == [];
  }

  /** A worked month: energy cells 10, blank, 20 at a fuel rate of 0.10 and
      50 per outage give 30 kWh, one outage, 3.0 + 50 = 53.0. */
  lemma WorkedMonth(P: Parsers)
    requires P.toFloat("10") == Some(10.0) && P.toFloat("20") == Some(20.0)
    ensures MonthFigures(P, Rates(0.1, 50.0), [[EnergySaving], ["10"], [""], ["20"]])
         == Ok(Some(Figures(30.0, 1, 3.0, 50.0, 53.0)))
  {
    var reader := [[EnergySaving], ["10"], [""], ["20"]];
    assert FindColumn(reader[0], EnergySaving) == Some(0);
    assert reader[1..] == [["10"], [""], ["20"]];
    WorkedKwh(P);
    WorkedOutages();
  }

  /** The worked month's energy sum: the blank cell is skipped. */
  lemma WorkedKwh(P: Parsers)
    requires P.toFloat("10") == Some(10.0) && P.toFloat("20") == Some(20.0)
    ensures KwhSum(P, [["10"], [""], ["20"]], 0) == Ok(30.0)
  {
    var rows := [["10"], [""], ["20"]];
    assert rows[..2] == [["10"], [""]] && rows[..2][..1] == [["10"]] && rows[..2][..1][..0] == [];
    assert KwhSum(P, rows[..2][..1][..0], 0) == Ok(0.0);
    assert KwhSum(P, rows[..2][..1], 0) == Ok(10.0);
    assert KwhSum(P, rows[..2], 0) == Ok(10.0);
  }

  /** The worked month's non-blank energy cells. */
  lemma WorkedOutages()
    ensures NonBlank(Column([["10"], [""], ["20"]], 0)) == ["10", "20"]
  {
    var col := Column([["10"], [""], ["20"]], 0);
    assert col == ["10", "", "20"];
    assert col[1..] == ["", "20"] && col[1..][1..] == ["20"] && col[1..][1..][1..] == [];
    assert NonBlank(["20"]) == ["20"];
    assert NonBlank(["", "20"]) == ["20"];
  }
}
