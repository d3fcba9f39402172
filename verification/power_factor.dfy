/** The power-factor estimate (`PowerFactorSavingsCalculator`): for each
    tab-separated line (timestamp, real power in kW) the reactive power needed
    at the target power factor, before and after a fixed reduction, and the
    cost and loss-energy totals over the file. */
module PowerFactor {
  import opened Py

  /** The configuration entries the calculation reads. */
  datatype Config = Config(
    targetPf: real,
    costReactive: real,
    systemLossFactor: real,
    energyCost: real,
    reduction: real)

  /** `math.sqrt` on the non-negative reals, as a parameter: any function is
      allowed, and the properties that need it to be a square root say so. */
  ghost predicate IsSqrt(sqrt: real -> real)
  {
    forall x :: x >= 0.0 ==> sqrt(x) >= 0.0 && sqrt(x) * sqrt(x) == x
  }

  /** One line's figures. */
  datatype RowFigures = RowFigures(
    apparent: real,
    before: real,
    after: real,
    costBefore: real,
    costAfter: real,
    energy: real)

  /** `timestamp, real_power = row` then `float(real_power)`: a line with
      other than two fields, or a power `float` rejects, raises ValueError. */
  function RealPower(P: Parsers, line: seq<string>): (r: Result<real>)
    ensures r.Ok? <==> |line| == 2 && P.toFloat(line[1]).Some?
    ensures r.Ok? ==> Some(r.value) == P.toFloat(line[1])
    ensures r.Err? ==> r.error == ValueError
  {
    if |line| != 2 then Err(ValueError)
    else match P.toFloat(line[1])
      case Some(x) => Ok(x)
      case None => Err(ValueError)
  }

  /** The target power factor is not zero and S² − P² is not negative. */
  predicate InDomain(cfg: Config, p: real)
  {
    cfg.targetPf != 0.0 && (p / cfg.targetPf) * (p / cfg.targetPf) - p * p >= 0.0
  }

  /** The figures of one line. Dividing by a zero target power factor raises
      ZeroDivisionError; the square root of a negative S² − P² raises
      ValueError. */
  function Figures(P: Parsers, sqrt: real -> real, cfg: Config, line: seq<string>): (r: Result<RowFigures>)
    ensures r.Ok? <==> RealPower(P, line).Ok? && InDomain(cfg, RealPower(P, line).value)
    ensures r.Ok? ==> r.value.after == r.value.before - cfg.reduction
  {
    var p :- RealPower(P, line);
    if cfg.targetPf == 0.0 then Err(ZeroDivisionError)
    else
      var s := p / cfg.targetPf;
      var d := s * s - p * p;
      if d < 0.0 then Err(ValueError)
      else
        var before := sqrt(d);
        var after := before - cfg.reduction;
        Ok(RowFigures(s, before, after,
                      cfg.costReactive * before, cfg.costReactive * after,
                      cfg.systemLossFactor * (before * before - after * after)))
  }

  /** A line's figures in terms of its power: apparent power is real power
      over the target factor, and the cost difference and energy saving
      depend on the reactive power only through the fixed reduction. */
  lemma LineFigures(P: Parsers, sqrt: real -> real, cfg: Config, line: seq<string>)
    requires Figures(P, sqrt, cfg, line).Ok?
    ensures var f := Figures(P, sqrt, cfg, line).value;
      && f.apparent * cfg.targetPf == RealPower(P, line).value
      && f.costBefore - f.costAfter == cfg.costReactive * cfg.reduction
      && f.energy == cfg.systemLossFactor * (2.0 * f.before * cfg.reduction - cfg.reduction * cfg.reduction)
  {
  }

  /** Where the square root is the real one, reactive power before is the
      non-negative leg of the power triangle: Q² + P² = S². */
  lemma PowerTriangle(P: Parsers, sqrt: real -> real, cfg: Config, line: seq<string>)
    requires IsSqrt(sqrt) && Figures(P, sqrt, cfg, line).Ok?
    ensures var f := Figures(P, sqrt, cfg, line).value; var p := RealPower(P, line).value;
      f.before >= 0.0 && f.before * f.before + p * p == f.apparent * f.apparent
  {
    var p := RealPower(P, line).value;
    var s := p / cfg.targetPf;
    assert sqrt(s * s - p * p) * sqrt(s * s - p * p) == s * s - p * p;
  }

  /** The square root's argument is non-negative exactly when the power is 0
      or the target power factor is at most 1 in size. */
  lemma SqrtDomain(p: real, pf: real)
    requires pf != 0.0
    ensures (p / pf) * (p / pf) - p * p >= 0.0 <==> p == 0.0 || pf * pf <= 1.0
  {
    var s := p / pf;
    assert s * pf == p;
    assert (s * s - p * p) * (pf * pf) == p * p * (1.0 - pf * pf) by {
      calc {
        (s * s - p * p) * (pf * pf);
        (s * pf) * (s * pf) - p * p * (pf * pf);
        p * p - p * p * (pf * pf);
      }
    }
    if p != 0.0 {
      assert p * p > 0.0;
      assert pf * pf > 0.0;
      if pf * pf <= 1.0 {
        assert p * p * (1.0 - pf * pf) >= 0.0;
      } else {
        assert p * p * (1.0 - pf * pf) < 0.0;
      }
    }
  }

  /** The running totals. */
  datatype Totals = Totals(costBefore: real, costAfter: real, energy: real)

  /** The `for row in reader` loop: each line's figures added in; the first
      exception ends the run. */
  function Accumulate(P: Parsers, sqrt: real -> real, cfg: Config, lines: seq<seq<string>>): (r: Result<Totals>)
    decreases |lines|
  {
    if lines == [] then Ok(Totals(0.0, 0.0, 0.0))
    else
      var t :- Accumulate(P, sqrt, cfg, lines[..|lines| - 1]);
      var f :- Figures(P, sqrt, cfg, lines[|lines| - 1]);
      Ok(Totals(t.costBefore + f.costBefore, t.costAfter + f.costAfter, t.energy + f.energy))
  }

  /** Every line gives its figures. */
  predicate AllFigures(P: Parsers, sqrt: real -> real, cfg: Config, lines: seq<seq<string>>)
  {
    forall i :: 0 <= i < |lines| ==> Figures(P, sqrt, cfg, lines[i]).Ok?
  }

  /** The loop completes exactly when every line gives its figures. */
  lemma {:induction false} AccumulateOk(P: Parsers, sqrt: real -> real, cfg: Config, lines: seq<seq<string>>)
    ensures Accumulate(P, sqrt, cfg, lines).Ok? <==> AllFigures(P, sqrt, cfg, lines)
    decreases |lines|
  {
    if lines != [] {
      var n := |lines| - 1;
      var init := lines[..n];
      AccumulateOk(P, sqrt, cfg, init);
      assert forall i :: 0 <= i < n ==> init[i] == lines[i];
    }
  }

  /** c added n times. */
  function Times(n: nat, c: real): (r: real)
  {
    if n == 0 then 0.0 else Times(n - 1, c) + c
  }

  /** Adding c n times is multiplying by n. */
  lemma {:induction false} TimesIsProduct(n: nat, c: real)
    ensures Times(n, c) == (n as real) * c
  {
    if n > 0 {
      TimesIsProduct(n - 1, c);
      assert (n as real) * c == ((n - 1) as real) * c + c;
    }
  }

  /** The cost difference the loop accumulates is the reactive tariff times
      the reduction, once per line, whatever the data. */
  lemma {:induction false} CostDifference(P: Parsers, sqrt: real -> real, cfg: Config, lines: seq<seq<string>>)
    requires Accumulate(P, sqrt, cfg, lines).Ok?
    ensures var t := Accumulate(P, sqrt, cfg, lines).value;
      t.costBefore - t.costAfter == Times(|lines|, cfg.costReactive * cfg.reduction)
    decreases |lines|
  {
    if lines != [] {
      CostDifference(P, sqrt, cfg, lines[..|lines| - 1]);
      LineCost(P, sqrt, cfg, lines);
    }
  }

  /** The last line adds exactly the reactive tariff times the reduction to
      the cost difference. */
  lemma LineCost(P: Parsers, sqrt: real -> real, cfg: Config, lines: seq<seq<string>>)
    requires lines != [] && Accumulate(P, sqrt, cfg, lines).Ok?
    ensures var t := Accumulate(P, sqrt, cfg, lines).value;
      var prev := Accumulate(P, sqrt, cfg, lines[..|lines| - 1]).value;
      t.costBefore - t.costAfter == (prev.costBefore - prev.costAfter) + cfg.costReactive * cfg.reduction
  {
    LineFigures(P, sqrt, cfg, lines[|lines| - 1]);
  }

  /** The energy saved by the lines, one figure per line. */
  function EnergyColumn(P: Parsers, sqrt: real -> real, cfg: Config, lines: seq<seq<string>>): (r: seq<real>)
    requires AllFigures(P, sqrt, cfg, lines)
    ensures |r| == |lines|
    ensures forall i :: 0 <= i < |lines| ==> r[i] == Figures(P, sqrt, cfg, lines[i]).value.energy
  {
    seq(|lines|, i requires 0 <= i < |lines| => Figures(P, sqrt, cfg, lines[i]).value.energy)
  }

  /** The energy total is the sum of the lines' energy savings. */
  lemma {:induction false} EnergyIsSum(P: Parsers, sqrt: real -> real, cfg: Config, lines: seq<seq<string>>)
    requires Accumulate(P, sqrt, cfg, lines).Ok?
    ensures AllFigures(P, sqrt, cfg, lines)
    ensures Accumulate(P, sqrt, cfg, lines).value.energy == Sum(EnergyColumn(P, sqrt, cfg, lines))
    decreases |lines|
  {
    AccumulateOk(P, sqrt, cfg, lines);
    if lines != [] {
      var n := |lines| - 1;
      var init := lines[..n];
      AccumulateOk(P, sqrt, cfg, init);
      EnergyIsSum(P, sqrt, cfg, init);
      assert EnergyColumn(P, sqrt, cfg, lines)[..n] == EnergyColumn(P, sqrt, cfg, init);
    }
  }

  /** What the run computes (and only logs). */
  datatype Outcome = Outcome(costSavings: real, totalCostSavings: real, energySavings: real)

  /** `calculate_power_factor_savings`: a missing file returns with nothing
      computed; otherwise the totals over every line. */
  function Calculate(P: Parsers, sqrt: real -> real, cfg: Config, file: Option<seq<seq<string>>>): (r: Result<Option<Outcome>>)
    ensures file.None? ==> r == Ok(None)
    ensures r.Ok? && r.value.Some? ==>
      r.value.value.totalCostSavings == r.value.value.costSavings + r.value.value.energySavings * cfg.energyCost
  {
    match file
    case None => Ok(None)
    case Some(lines) =>
      var t :- Accumulate(P, sqrt, cfg, lines);
      var costSavings := t.costBefore - t.costAfter;
      Ok(Some(Outcome(costSavings, costSavings + t.energy * cfg.energyCost, t.energy)))
  }

  /** The run's figures in terms of the lines: the cost savings depend only
      on how many lines there are (`TimesIsProduct` turns them into a
      product), the energy savings are the per-line sum. */
  lemma CalculateFigures(P: Parsers, sqrt: real -> real, cfg: Config, lines: seq<seq<string>>)
    ensures Calculate(P, sqrt, cfg, Some(lines)).Ok? <==> AllFigures(P, sqrt, cfg, lines)
    ensures Calculate(P, sqrt, cfg, Some(lines)).Ok? ==>
      var o := Calculate(P, sqrt, cfg, Some(lines)).value.value;
      && o.costSavings == Times(|lines|, cfg.costReactive * cfg.reduction)
      && o.energySavings == Sum(EnergyColumn(P, sqrt, cfg, lines))
  {
    AccumulateOk(P, sqrt, cfg, lines);
    if Accumulate(P, sqrt, cfg, lines).Ok? {
      CostDifference(P, sqrt, cfg, lines);
      EnergyIsSum(P, sqrt, cfg, lines);
    }
  }
}
