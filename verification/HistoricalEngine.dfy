/**
 * Approximate historical P&L and the engine's VaR / ES
 * (risk/historical.py, compute/kernel.py, risk/shock_units.py).
 */
module HistoricalEngine {
  import opened Wrappers
  import opened RealMath
  import opened Vectors
  import opened HistoricalVar
  import opened Factors

  datatype Methodology = LINEAR | DELTA_GAMMA | FULL_REVALUATION

  /** A position's value and its Greeks. */
  datatype Valuation = Valuation(marketValue: real, delta: real, gamma: real, vega: real, dv01: real, fxDelta: real)

  datatype Shock = Shock(equityReturn: real, volPoints: real, ratesBps: real, fxReturn: real)

  const NO_VALUE := Valuation(0.0, 0.0, 0.0, 0.0, 0.0, 0.0)

  function AddValuations(a: Valuation, b: Valuation): Valuation {
    Valuation(a.marketValue + b.marketValue, a.delta + b.delta, a.gamma + b.gamma, a.vega + b.vega,
              a.dv01 + b.dv01, a.fxDelta + b.fxDelta)
  }

  function AggregateGreeks(vals: seq<Valuation>): Valuation {
    if vals == [] then NO_VALUE else AddValuations(vals[0], AggregateGreeks(vals[1..]))
  }

  // ----- the scenario kernel -----

  function ShockPnl(e: Valuation, s: Shock): real {
    e.delta * s.equityReturn
    + 0.5 * e.gamma * (s.equityReturn * s.equityReturn)
    + e.vega * s.volPoints
    + e.dv01 * s.ratesBps
    + e.fxDelta * s.fxReturn
  }

  function ExposurePnl(exposures: seq<Valuation>, s: Shock): real {
    if exposures == [] then 0.0 else ShockPnl(exposures[0], s) + ExposurePnl(exposures[1..], s)
  }

  /** PythonScenarioKernel.pnl: for every shock, the sum over exposures. */
  function KernelPnl(exposures: seq<Valuation>, shocks: seq<Shock>): (r: Vec)
    ensures |r| == |shocks|
  {
    seq(|shocks|, i requires 0 <= i < |shocks| => ExposurePnl(exposures, shocks[i]))
  }

  lemma ShockPnlAdd(a: Valuation, b: Valuation, s: Shock)
    ensures ShockPnl(AddValuations(a, b), s) == ShockPnl(a, s) + ShockPnl(b, s)
  {
    var q := s.equityReturn * s.equityReturn;
    Distribute(a.delta, b.delta, s.equityReturn);
    Distribute(0.5 * a.gamma, 0.5 * b.gamma, q);
    Distribute(a.vega, b.vega, s.volPoints);
    Distribute(a.dv01, b.dv01, s.ratesBps);
    Distribute(a.fxDelta, b.fxDelta, s.fxReturn);
  }

  lemma Distribute(a: real, b: real, c: real)
    ensures (a + b) * c == a * c + b * c
  {
  }

  /** The nested sum over a book equals one shock of its aggregated Greeks. */
  lemma {:induction false} KernelAggregates(exposures: seq<Valuation>, s: Shock)
    ensures ExposurePnl(exposures, s) == ShockPnl(AggregateGreeks(exposures), s)
  {
    if exposures != [] {
      KernelAggregates(exposures[1..], s);
      ShockPnlAdd(exposures[0], AggregateGreeks(exposures[1..]), s);
    }
  }

  // ----- one aggregated exposure against shared factor observations -----

  /** One date of the shared four-factor history: relative vol moves, rates in basis points. */
  datatype MacroMove = MacroMove(equityReturn: real, volMove: real, rateBps: real, fxReturn: real)

  function RelativeVolMoveToVolPoints(move: real, baseVol: real): real {
    baseVol * move * 100.0
  }

  function ToShock(m: MacroMove, baseVol: real): Shock {
    Shock(m.equityReturn, RelativeVolMoveToVolPoints(m.volMove, baseVol), m.rateBps, m.fxReturn)
  }

  function ToShocks(history: seq<MacroMove>, baseVol: real): (r: seq<Shock>)
    ensures |r| == |history|
  {
    seq(|history|, i requires 0 <= i < |history| => ToShock(history[i], baseVol))
  }

  function WithoutGamma(v: Valuation, methodology: Methodology): Valuation {
    if methodology.LINEAR? then v.(gamma := 0.0) else v
  }

  /** approximate_pnl_series through a scenario kernel. */
  function ApproximatePnlSeries(v: Valuation, history: seq<MacroMove>, methodology: Methodology, baseVol: real): Result<Vec, string> {
    if methodology.FULL_REVALUATION? then Err("FULL_REVALUATION cannot use the linear kernel")
    else Ok(KernelPnl([WithoutGamma(v, methodology)], ToShocks(history, baseVol)))
  }

  /** approximate_pnl_series without a kernel: the linear terms, and gamma only for DELTA_GAMMA. */
  function ArrayPnlAt(v: Valuation, m: MacroMove, methodology: Methodology, baseVol: real): real
    requires !methodology.FULL_REVALUATION?
  {
    var linear := v.delta * m.equityReturn
      + v.vega * RelativeVolMoveToVolPoints(m.volMove, baseVol)
      + v.dv01 * m.rateBps
      + v.fxDelta * m.fxReturn;
    if methodology.LINEAR? then linear
    else linear + 0.5 * v.gamma * m.equityReturn * m.equityReturn
  }

  /** Both evaluation paths of approximate_pnl_series agree at every scenario. */
  lemma KernelMatchesArrays(v: Valuation, history: seq<MacroMove>, methodology: Methodology, baseVol: real, i: nat)
    requires !methodology.FULL_REVALUATION? && i < |history|
    ensures ApproximatePnlSeries(v, history, methodology, baseVol).value[i]
         == ArrayPnlAt(v, history[i], methodology, baseVol)
  {
    var e, m := WithoutGamma(v, methodology), history[i];
    var s := ToShock(m, baseVol);
    assert [e][1..] == [];
    assert ExposurePnl([e], s) == ShockPnl(e, s);
    if methodology.LINEAR? {
      MulZero(s.equityReturn * s.equityReturn, 0.5 * e.gamma);
    } else {
      MulAssoc(0.5 * v.gamma, m.equityReturn, m.equityReturn);
    }
  }

  lemma {:induction false} WithoutGammaAggregates(vals: seq<Valuation>, methodology: Methodology)
    ensures AggregateGreeks(Effective(vals, methodology)) == WithoutGamma(AggregateGreeks(vals), methodology)
  {
    if vals != [] {
      assert Effective(vals, methodology)[1..] == Effective(vals[1..], methodology);
      WithoutGammaAggregates(vals[1..], methodology);
    }
  }

  function Effective(vals: seq<Valuation>, methodology: Methodology): (r: seq<Valuation>)
    ensures |r| == |vals|
  {
    seq(|vals|, k requires 0 <= k < |vals| => WithoutGamma(vals[k], methodology))
  }

  /** historical_pnl_for_valuation on every trade, and the vector the trades add up to. */
  function TradeSeries(vals: seq<Valuation>, history: seq<MacroMove>, methodology: Methodology, baseVol: real): (r: seq<Vec>)
    requires !methodology.FULL_REVALUATION?
    ensures |r| == |vals| && Aligned(r, |history|)
  {
    seq(|vals|, k requires 0 <= k < |vals| => ApproximatePnlSeries(vals[k], history, methodology, baseVol).value)
  }

  /** Summing per-trade vectors is the same as one vector of the summed Greeks. */
  lemma TradesAggregate(vals: seq<Valuation>, history: seq<MacroMove>, methodology: Methodology, baseVol: real)
    requires !methodology.FULL_REVALUATION?
    ensures ApproximatePnlSeries(AggregateGreeks(vals), history, methodology, baseVol)
         == Ok(Total(TradeSeries(vals, history, methodology, baseVol), |history|))
  {
    var n, shocks, effective := |history|, ToShocks(history, baseVol), Effective(vals, methodology);
    var total := Total(TradeSeries(vals, history, methodology, baseVol), n);
    var whole := ApproximatePnlSeries(AggregateGreeks(vals), history, methodology, baseVol).value;
    forall i | 0 <= i < n
      ensures whole[i] == total[i]
    {
      WithoutGammaAggregates(vals, methodology);
      SingleExposure(AggregateGreeks(effective), shocks[i]);
      KernelAggregates(effective, shocks[i]);
      TradeTotalAt(vals, history, methodology, baseVol, i);
    }
    assert whole == total;
  }

  lemma SingleExposure(e: Valuation, s: Shock)
    ensures ExposurePnl([e], s) == ShockPnl(e, s)
  {
    assert [e][1..] == [];
  }

  lemma {:induction false} TradeTotalAt(vals: seq<Valuation>, history: seq<MacroMove>, methodology: Methodology, baseVol: real, i: nat)
    requires !methodology.FULL_REVALUATION? && i < |history|
    ensures Total(TradeSeries(vals, history, methodology, baseVol), |history|)[i]
         == ExposurePnl(Effective(vals, methodology), ToShock(history[i], baseVol))
  {
    if vals != [] {
      assert TradeSeries(vals, history, methodology, baseVol)[1..] == TradeSeries(vals[1..], history, methodology, baseVol);
      assert Effective(vals, methodology)[1..] == Effective(vals[1..], methodology);
      TradeTotalAt(vals[1..], history, methodology, baseVol, i);
      SingleExposure(WithoutGamma(vals[0], methodology), ToShock(history[i], baseVol));
    }
  }

  // ----- per-factor panels -----

  datatype Family = FamilyEquity | FamilyVol | FamilyRate | FamilyFx

  /** The column a factor reads: vol factors of one name share a column. */
  datatype Column = Column(key: string, family: Family, bucket: string)

  function FamilyOf(f: Factor): Family {
    match f
    case EquitySpot(_) => FamilyEquity
    case EquityVol(_, _, _) => FamilyVol
    case FXVol(_, _, _) => FamilyVol
    case RateZero(_, _) => FamilyRate
    case FXSpot(_) => FamilyFx
  }

  function ColumnOf(f: Factor): Column {
    Column(Key(f), FamilyOf(f), match f
      case EquitySpot(s) => s
      case EquityVol(u, _, _) => u
      case FXSpot(p) => p
      case FXVol(p, _, _) => p
      case RateZero(_, t) => t)
  }

  type Observation = map<Column, real>

  /** What a panel needs of the snapshot: base vols, to turn relative vol moves into vol points. */
  datatype BaseVols = BaseVols(equity: map<string, real>, fx: map<string, real>)

  predicate HasBaseVol(f: Factor, vols: BaseVols) {
    match f
    case EquityVol(u, _, _) => u in vols.equity
    case FXVol(p, _, _) => p in vols.fx
    case _ => true
  }

  /** Every factor of a position has a column on the date and a base vol in the snapshot. */
  predicate Covered(fs: seq<Factor>, o: Observation, vols: BaseVols) {
    forall j :: 0 <= j < |fs| ==> ColumnOf(fs[j]) in o && HasBaseVol(fs[j], vols)
  }

  predicate CoversPosition(fs: seq<Factor>, panel: seq<Observation>, vols: BaseVols) {
    forall i :: 0 <= i < |panel| ==> Covered(fs, panel[i], vols)
  }

  predicate CoversBook(factors: seq<seq<Factor>>, panel: seq<Observation>, vols: BaseVols) {
    forall k :: 0 <= k < |factors| ==> CoversPosition(factors[k], panel, vols)
  }

  function PanelLinearContribution(f: Factor, v: Valuation, move: real, vols: BaseVols): real
    requires HasBaseVol(f, vols)
  {
    match f
    case EquitySpot(_) => v.delta * move
    case FXSpot(_) => v.fxDelta * move
    case EquityVol(u, _, _) => v.vega * RelativeVolMoveToVolPoints(move, vols.equity[u])
    case FXVol(p, _, _) => v.vega * RelativeVolMoveToVolPoints(move, vols.fx[p])
    case RateZero(_, _) => v.dv01 * move
  }

  /** What one factor adds on one date, second order included. */
  function FactorPnl(f: Factor, v: Valuation, o: Observation, vols: BaseVols, methodology: Methodology): real
    requires ColumnOf(f) in o && HasBaseVol(f, vols)
  {
    var move := o[ColumnOf(f)];
    PanelLinearContribution(f, v, move, vols)
    + if methodology.DELTA_GAMMA? && f.EquitySpot? then 0.5 * v.gamma * move * move else 0.0
  }

  function PositionPnlAt(fs: seq<Factor>, v: Valuation, o: Observation, vols: BaseVols, methodology: Methodology): real
    requires Covered(fs, o, vols)
  {
    if fs == [] then 0.0
    else FactorPnl(fs[0], v, o, vols, methodology) + PositionPnlAt(fs[1..], v, o, vols, methodology)
  }

  function PositionSeries(fs: seq<Factor>, v: Valuation, panel: seq<Observation>, vols: BaseVols, methodology: Methodology): (r: Vec)
    requires CoversPosition(fs, panel, vols)
    ensures |r| == |panel|
  {
    seq(|panel|, i requires 0 <= i < |panel| => PositionPnlAt(fs, v, panel[i], vols, methodology))
  }

  function PanelSeries(factors: seq<seq<Factor>>, vals: seq<Valuation>, panel: seq<Observation>, vols: BaseVols, methodology: Methodology): (r: seq<Vec>)
    requires |factors| == |vals| && CoversBook(factors, panel, vols)
    ensures |r| == |vals| && Aligned(r, |panel|)
  {
    seq(|vals|, k requires 0 <= k < |vals| => PositionSeries(factors[k], vals[k], panel, vols, methodology))
  }

  /** The innermost loop: one position on one date. */
  method SumFactors(fs: seq<Factor>, v: Valuation, o: Observation, vols: BaseVols, methodology: Methodology) returns (total: real)
    requires Covered(fs, o, vols)
    ensures total == PositionPnlAt(fs, v, o, vols, methodology)
  {
    total := 0.0;
    for j := 0 to |fs|
      invariant total + PositionPnlAt(fs[j..], v, o, vols, methodology) == PositionPnlAt(fs, v, o, vols, methodology)
    {
      assert fs[j..][1..] == fs[j + 1..];
      total := total + FactorPnl(fs[j], v, o, vols, methodology);
    }
  }

  /**
   * approximate_position_pnls_from_panel: every position is moved by its own columns. The source keys
   * the rows by trade id; row k here belongs to position k.
   */
  method ApproximatePositionPnlsFromPanel(factors: seq<seq<Factor>>, vals: seq<Valuation>, panel: seq<Observation>,
      vols: BaseVols, methodology: Methodology)
    returns (r: Result<seq<Vec>, string>)
    requires |factors| == |vals|
    ensures r.Ok? <==> !methodology.FULL_REVALUATION? && CoversBook(factors, panel, vols)
    ensures r.Ok? ==> r.value == PanelSeries(factors, vals, panel, vols, methodology)
  {
    if methodology.FULL_REVALUATION? {
      return Err("FULL_REVALUATION cannot use the panel approximation");
    }
    if !CoversBook(factors, panel, vols) {
      return Err("panel missing required factor or base vol");
    }
    ghost var spec := PanelSeries(factors, vals, panel, vols, methodology);
    var rows := seq(|vals|, k => Zeros(|panel|));
    for i := 0 to |panel|
      invariant |rows| == |vals| && Aligned(rows, |panel|)
      invariant forall k :: 0 <= k < |vals| ==> rows[k][..i] == spec[k][..i]
    {
      for k := 0 to |vals|
        invariant |rows| == |vals| && Aligned(rows, |panel|)
        invariant forall k' :: 0 <= k' < k ==> rows[k'][..i + 1] == spec[k'][..i + 1]
        invariant forall k' :: k <= k' < |vals| ==> rows[k'][..i] == spec[k'][..i]
      {
        var total := SumFactors(factors[k], vals[k], panel[i], vols, methodology);
        var row := rows[k][i := total];
        assert row[..i + 1] == rows[k][..i] + [total];
        assert spec[k][..i + 1] == spec[k][..i] + [spec[k][i]];
        rows := rows[k := row];
      }
    }
    assert forall k :: 0 <= k < |vals| ==> rows[k] == rows[k][..|panel|] && spec[k] == spec[k][..|panel|];
    r := Ok(rows);
  }

  // ----- the engine's numbers -----

  /** HistoricalRiskEngine.calculate on shared observations: quantiles of no observation raise. */
  function CalculateAggregated(vals: seq<Valuation>, history: seq<MacroMove>, methodology: Methodology, baseVol: real): Result<VarEs, string>
    requires !methodology.FULL_REVALUATION?
  {
    var pnl := ApproximatePnlSeries(AggregateGreeks(vals), history, methodology, baseVol).value;
    if pnl == [] then Err("quantile of an empty sample") else Ok(VarEsOfLosses(Negate(pnl)))
  }

  /** HistoricalRiskEngine.calculate on a factor panel. */
  function CalculateFromPanel(factors: seq<seq<Factor>>, vals: seq<Valuation>, panel: seq<Observation>, vols: BaseVols,
                              methodology: Methodology): Result<VarEs, string>
    requires |factors| == |vals| && CoversBook(factors, panel, vols)
  {
    var pnl := Total(PanelSeries(factors, vals, panel, vols, methodology), |panel|);
    if pnl == [] then Err("quantile of an empty sample") else Ok(VarEsOfLosses(Negate(pnl)))
  }
}
