/**
 * Reported Greeks against repricing on a shocked snapshot: the value after the shock, priced again, and what the approximate
 * P&L makes of the Greeks (pricing/builtin.py, risk/historical.py, domain/models.py).
 */
module Sensitivities {
  import opened Wrappers
  import opened RealMath
  import opened Vectors
  import opened Factors
  import opened Snapshots
  import opened CurveRates
  import opened HistoricalEngine
  import opened Builtin
  import opened Parity
  import opened BlackBounds
  import opened AtForward
  import opened CurveOrder
  import V = VolSurfaces

  /** Priced before and after, with this difference in value. */
  predicate Gained(before: Result<Valuation, string>, after: Result<Valuation, string>, gain: real) {
    before.Ok? && after.Ok? && after.value.marketValue - before.value.marketValue == gain
  }

  lemma GainedFrom(v: Valuation, v': Valuation, gain: real)
    requires v'.marketValue - v.marketValue == gain
    ensures Gained(Ok(v), Ok(v'), gain)
  {
  }

  /** The approximate P&L of the Greeks reported before. */
  function Predicted(before: Result<Valuation, string>, move: MacroMove, methodology: Methodology, baseVol: real): real
    requires !methodology.FULL_REVALUATION?
  {
    if before.Ok? then ArrayPnlAt(before.value, move, methodology, baseVol) else 0.0
  }

  lemma GrowGain(c: real, s: real, x: real)
    ensures c * Grow(s, x) - c * s == c * s * x
  {
    assert Grow(s, x) == s + s * x;
    assert c * (s + s * x) == c * s + c * (s * x);
    MulAssoc(c, s, x);
  }

  // ----- spots -----

  lemma SpotShocked(m: Marks, symbol: string, x: real, m': Marks)
    requires ApplyOne(m, Snapshots.Shock(EquitySpot(symbol), x)) == Ok(m')
    ensures symbol in m.equitySpots && m' == m.(equitySpots := m.equitySpots[symbol := Grow(m.equitySpots[symbol], x)])
  {
  }

  lemma NoGreeks(v: Valuation, move: MacroMove, methodology: Methodology, baseVol: real)
    requires !methodology.FULL_REVALUATION? && v.gamma == v.vega == v.dv01 == v.fxDelta == 0.0
    ensures ArrayPnlAt(v, move, methodology, baseVol) == v.delta * move.equityReturn
  {
  }

  /** A cash equity gains exactly what its delta predicts, whatever else the prediction is told. */
  lemma EquityRepriced(e: Economics, duration: real, m: Marks, m': Marks, move: MacroMove, methodology: Methodology, baseVol: real, maths: Maths)
    requires e.Equity? && !methodology.FULL_REVALUATION?
    requires ApplyOne(m, Snapshots.Shock(EquitySpot(e.symbol), move.equityReturn)) == Ok(m')
    ensures Gained(Priced(e, duration, m, maths), Priced(e, duration, m', maths),
                   Predicted(Priced(e, duration, m, maths), move, methodology, baseVol))
  {
    SpotShocked(m, e.symbol, move.equityReturn, m');
    var v := Priced(e, duration, m, maths).value;
    GrowGain(e.quantity, m.equitySpots[e.symbol], move.equityReturn);
    NoGreeks(v, move, methodology, baseVol);
  }

  lemma FutureGrows(s: real, r: real, q: real, quantity: real, multiplier: real, t: real, x: real, maths: Maths)
    ensures var v, v' := EquityFutureAt(s, r, q, quantity, multiplier, t, maths), EquityFutureAt(Grow(s, x), r, q, quantity, multiplier, t, maths);
      v'.marketValue - v.marketValue == v.delta * x
  {
    var c, f := quantity * multiplier, maths.exp((r - q) * t);
    assert Grow(s, x) * f == Grow(s * f, x) by {
      assert s * (1.0 + x) * f == s * f * (1.0 + x);
    }
    GrowGain(c, s * f, x);
  }

  lemma FutureAt(e: Economics, duration: real, m: Marks, maths: Maths) returns (s: real, r: real, q: real)
    requires e.EquityFuture? && Contractual(e) && Priced(e, duration, m, maths).Ok?
    ensures Mark(m.equitySpots, e.symbol) == Ok(s) && Mark(m.rates, e.currency) == Ok(r) && Mark(m.dividendYields, e.symbol) == Ok(q)
    ensures Priced(e, duration, m, maths) == Ok(EquityFutureAt(s, r, q, e.quantity, e.multiplier, e.maturity, maths))
  {
    s, r, q := m.equitySpots[e.symbol], m.rates[e.currency], m.dividendYields[e.symbol];
  }

  lemma FuturePriced(e: Economics, duration: real, m: Marks, s: real, r: real, q: real, maths: Maths)
    requires e.EquityFuture? && Contractual(e)
    requires Mark(m.equitySpots, e.symbol) == Ok(s) && Mark(m.rates, e.currency) == Ok(r) && Mark(m.dividendYields, e.symbol) == Ok(q)
    ensures Priced(e, duration, m, maths) == Ok(EquityFutureAt(s, r, q, e.quantity, e.multiplier, e.maturity, maths))
  {
  }

  /** So does an equity future, when only the spot moves. */
  lemma FutureRepriced(e: Economics, duration: real, m: Marks, m': Marks, x: real, methodology: Methodology, baseVol: real, maths: Maths)
    requires e.EquityFuture? && Contractual(e) && !methodology.FULL_REVALUATION? && Priced(e, duration, m, maths).Ok?
    requires ApplyOne(m, Snapshots.Shock(EquitySpot(e.symbol), x)) == Ok(m')
    ensures Gained(Priced(e, duration, m, maths), Priced(e, duration, m', maths),
                   Predicted(Priced(e, duration, m, maths), MacroMove(x, 0.0, 0.0, 0.0), methodology, baseVol))
  {
    var s, r, q := FutureAt(e, duration, m, maths);
    SpotShocked(m, e.symbol, x, m');
    FuturePriced(e, duration, m', Grow(s, x), r, q, maths);
    FutureGrows(s, r, q, e.quantity, e.multiplier, e.maturity, x, maths);
    SpotOnly(EquityFutureAt(s, r, q, e.quantity, e.multiplier, e.maturity, maths), x, methodology, baseVol);
  }

  lemma SpotOnly(v: Valuation, x: real, methodology: Methodology, baseVol: real)
    requires !methodology.FULL_REVALUATION? && v.gamma == 0.0
    ensures ArrayPnlAt(v, MacroMove(x, 0.0, 0.0, 0.0), methodology, baseVol) == v.delta * x
  {
    MulZero(v.vega, RelativeVolMoveToVolPoints(0.0, baseVol));
  }

  /** A future is worth the spot less its dividends, carried at the settlement rate. */
  lemma FutureIsCarriedSpot(s: real, r: real, q: real, quantity: real, multiplier: real, t: real, maths: Maths)
    requires Multiplicative(maths.exp)
    ensures EquityFutureAt(s, r, q, quantity, multiplier, t, maths).marketValue * Discount(r, t, maths) == quantity * multiplier * (s * Discount(q, t, maths))
  {
    hide *;
    AtForward.DiscountIs(q, t, maths);
    AtForward.DiscountIs(r, t, maths);
    assert (r - q) * t + -r * t == -q * t;
    ExpSum((r - q) * t, -r * t, -q * t, maths);
    FutureIs(s, r, q, quantity, multiplier, t, maths);
    Regroup(quantity * multiplier, s, maths.exp((r - q) * t), Discount(r, t, maths), Discount(q, t, maths));
  }

  lemma Regroup(c: real, s: real, f: real, d: real, e: real)
    requires f * d == e
    ensures c * (s * f) * d == c * (s * e)
  {
    MulAssoc(s, f, d);
    MulAssoc(c, s * f, d);
  }

  lemma FutureIs(s: real, r: real, q: real, quantity: real, multiplier: real, t: real, maths: Maths)
    ensures EquityFutureAt(s, r, q, quantity, multiplier, t, maths).marketValue == quantity * multiplier * (s * maths.exp((r - q) * t))
  {
  }

  // ----- currencies -----

  lemma FxShocked(m: Marks, pair: string, x: real, m': Marks, s: real)
    requires ApplyOne(m, Snapshots.Shock(FXSpot(pair), x)) == Ok(m') && Mark(m.fxSpots, pair) == Ok(s)
    ensures Mark(m'.fxSpots, pair) == Ok(Grow(s, x)) && m'.rates == m.rates
  {
  }

  lemma ForwardGrows(s: real, rd: real, rf: real, notional: real, k: real, t: real, x: real, maths: Maths)
    requires Multiplicative(maths.exp)
    ensures var v, v' := FxForwardAt(s, rd, rf, notional, k, t, maths), FxForwardAt(Grow(s, x), rd, rf, notional, k, t, maths);
      v'.marketValue - v.marketValue == v.fxDelta * x * Discount(rf, t, maths)
  {
    ForwardIs(s, rd, rf, notional, k, t, maths);
    ForwardIs(Grow(s, x), rd, rf, notional, k, t, maths);
    hide *;
    var f := Discount(rf, t, maths);
    assert FxForwardAt(s, rd, rf, notional, k, t, maths).fxDelta == notional * s by {
      ForwardDelta(s, rd, rf, notional, k, t, maths);
    }
    ForwardGain(notional, s, Grow(s, x), x, f, k * Discount(rd, t, maths)) by {
      GrowIs(s, x);
    }
  }

  lemma ForwardDelta(s: real, rd: real, rf: real, notional: real, k: real, t: real, maths: Maths)
    ensures FxForwardAt(s, rd, rf, notional, k, t, maths).fxDelta == notional * s
  {
  }

  lemma GrowIs(s: real, x: real)
    ensures Grow(s, x) == s + s * x
  {
  }

  lemma ForwardGain(notional: real, s: real, s': real, x: real, f: real, leg: real)
    requires s' == s + s * x
    ensures notional * (s' * f - leg) - notional * (s * f - leg) == notional * s * x * f
  {
    assert s' * f - leg - (s * f - leg) == s * x * f;
    Parity.Share(notional, s' * f - leg, s * f - leg, s * x * f);
    assert notional * (s * x * f) == notional * s * x * f;
  }

  lemma ForwardAt(e: Economics, duration: real, m: Marks, maths: Maths) returns (s: real, rd: real, rf: real)
    requires e.FxForward? && Contractual(e) && Priced(e, duration, m, maths).Ok?
    ensures |e.pair| == 6 && Base(e.pair) in m.rates && m.rates[Base(e.pair)] == rf
    ensures Mark(m.fxSpots, e.pair) == Ok(s) && Mark(m.rates, Quote(e.pair)) == Ok(rd) && Mark(m.rates, Base(e.pair)) == Ok(rf)
    ensures Priced(e, duration, m, maths) == Ok(FxForwardAt(s, rd, rf, e.notionalBase, e.strike, e.maturity, maths))
  {
    s, rd, rf := m.fxSpots[e.pair], m.rates[Quote(e.pair)], m.rates[Base(e.pair)];
  }

  lemma ForwardPriced(e: Economics, duration: real, m: Marks, s: real, rd: real, rf: real, maths: Maths)
    requires e.FxForward? && Contractual(e)
    requires Mark(m.fxSpots, e.pair) == Ok(s) && Mark(m.rates, Quote(e.pair)) == Ok(rd) && Mark(m.rates, Base(e.pair)) == Ok(rf)
    ensures Priced(e, duration, m, maths) == Ok(FxForwardAt(s, rd, rf, e.notionalBase, e.strike, e.maturity, maths))
  {
  }

  lemma FxOnly(v: Valuation, x: real, methodology: Methodology, baseVol: real)
    requires !methodology.FULL_REVALUATION?
    ensures Predicted(Ok(v), MacroMove(0.0, 0.0, 0.0, x), methodology, baseVol) == v.fxDelta * x
  {
    MulZero(v.vega, RelativeVolMoveToVolPoints(0.0, baseVol));
    MulZero(0.5 * v.gamma * 0.0, 0.0);
  }

  lemma Undiscounted(d: real, f: real, g: real)
    requires g == d * f
    ensures g == d <==> d == 0.0 || f == 1.0
  {
    if g == d && d != 0.0 {
      MulCancelEq(f, 1.0, d);
    }
  }

  lemma ForwardRepriced(e: Economics, duration: real, m: Marks, m': Marks, x: real, maths: Maths) returns (v: Valuation, f: real)
    requires e.FxForward? && Contractual(e) && Multiplicative(maths.exp)
    requires Priced(e, duration, m, maths).Ok? && ApplyOne(m, Snapshots.Shock(FXSpot(e.pair), x)) == Ok(m')
    ensures Base(e.pair) in m.rates && f == Discount(m.rates[Base(e.pair)], e.maturity, maths)
    ensures Priced(e, duration, m, maths) == Ok(v) && Gained(Ok(v), Priced(e, duration, m', maths), v.fxDelta * x * f)
  {
    hide *;
    var s, rd, rf := ForwardAt(e, duration, m, maths);
    FxShocked(m, e.pair, x, m', s);
    ForwardPriced(e, duration, m', Grow(s, x), rd, rf, maths);
    ForwardGrows(s, rd, rf, e.notionalBase, e.strike, e.maturity, x, maths);
    v, f := FxForwardAt(s, rd, rf, e.notionalBase, e.strike, e.maturity, maths), Discount(rf, e.maturity, maths);
    GainedFrom(v, FxForwardAt(Grow(s, x), rd, rf, e.notionalBase, e.strike, e.maturity, maths), v.fxDelta * x * f);
  }

  lemma GainedOnce(before: Result<Valuation, string>, after: Result<Valuation, string>, gain: real, other: real)
    requires Gained(before, after, gain)
    ensures Gained(before, after, other) <==> other == gain
  {
  }

  /**
   * A currency forward gains its FX delta times the move, discounted at the rate of the base currency, which the reported delta is not.
   * So the prediction is right exactly when nothing is at stake or that discount is one.
   */
  lemma ForwardRepricedExactly(e: Economics, duration: real, m: Marks, m': Marks, x: real, methodology: Methodology, baseVol: real, maths: Maths)
    returns (v: Valuation, f: real)
    requires e.FxForward? && Contractual(e) && Multiplicative(maths.exp) && !methodology.FULL_REVALUATION?
    requires Priced(e, duration, m, maths).Ok? && ApplyOne(m, Snapshots.Shock(FXSpot(e.pair), x)) == Ok(m')
    ensures Priced(e, duration, m, maths) == Ok(v)
    ensures Base(e.pair) in m.rates && f == Discount(m.rates[Base(e.pair)], e.maturity, maths)
    ensures Gained(Ok(v), Priced(e, duration, m', maths), v.fxDelta * x * f)
    ensures Gained(Ok(v), Priced(e, duration, m', maths), Predicted(Ok(v), MacroMove(0.0, 0.0, 0.0, x), methodology, baseVol))
      <==> v.fxDelta * x == 0.0 || f == 1.0
  {
    hide *;
    v, f := ForwardRepriced(e, duration, m, m', x, maths);
    FxOnly(v, x, methodology, baseVol);
    GainedOnce(Ok(v), Priced(e, duration, m', maths), v.fxDelta * x * f, Predicted(Ok(v), MacroMove(0.0, 0.0, 0.0, x), methodology, baseVol));
    Undiscounted(v.fxDelta * x, f, v.fxDelta * x * f);
  }

  // ----- rates -----

  /** Any parallel shock of a marked currency goes through. */
  lemma ParallelShocked(m: Marks, currency: string, a: real)
    requires currency in m.rates
    ensures ApplyOne(m, Snapshots.Shock(RateZero(currency, "PARALLEL"), a)) == Ok(ShiftRates(m, currency, None, a))
  {
    assert TenorOf("PARALLEL") == None;
  }

  lemma RateOnly(v: Valuation, bps: real, methodology: Methodology, baseVol: real)
    requires !methodology.FULL_REVALUATION?
    ensures Predicted(Ok(v), MacroMove(0.0, 0.0, bps, 0.0), methodology, baseVol) == v.dv01 * bps
  {
    MulZero(v.vega, RelativeVolMoveToVolPoints(0.0, baseVol));
    MulZero(0.5 * v.gamma * 0.0, 0.0);
  }

  lemma SwapGain(sign: real, y: real, step: real, a: real, bump: real, fixedRate: real, annuity: real, dv01: real)
    requires dv01 == sign * (bump * annuity) && step * ONE_BP == a * bump
    ensures sign * (y + step - fixedRate) * annuity - sign * (y - fixedRate) * annuity == dv01 * (a * 10000.0)
  {
    assert sign * (y + step - fixedRate) * annuity == sign * (y - fixedRate) * annuity + sign * (step * annuity) by {
      assert sign * (y + step - fixedRate) == sign * (y - fixedRate) + sign * step;
      MulAssoc(sign, step, annuity);
    }
    assert step == a * bump * 10000.0;
    assert sign * (a * bump * 10000.0 * annuity) == sign * (bump * annuity) * (a * 10000.0);
  }

  lemma SwapAt(m: Marks, e: Economics, duration: real, z: real, annuity: real, maths: Maths) returns (v: Valuation)
    requires e.Swap? && Contractual(e) && e.currency in m.rates && RequiredZero(m, e.currency, e.maturity, false) == Ok(z)
    requires annuity == e.notional * duration
    ensures Priced(e, duration, m, maths) == Ok(v)
    ensures v.marketValue == Sign(e.payFixed) * (z - e.fixedRate) * annuity && v.dv01 == Sign(e.payFixed) * (RateMove(m, e.currency) * annuity)
  {
    hide *;
    SwapTerms(e);
    PricedSwap(m, e.currency, e.notional, e.maturity, e.fixedRate, e.payFixed, duration, annuity, maths);
    v := SwapOfZeroIs(z, RateMove(m, e.currency), e.fixedRate, e.payFixed, annuity);
  }

  lemma SwapTerms(e: Economics)
    requires e.Swap? && Contractual(e)
    ensures e.notional > 0.0 && e.maturity > 0.0 && e == Swap(e.currency, e.notional, e.maturity, e.fixedRate, e.payFixed)
  {
  }

  lemma SwapOfZeroIs(z: real, move: real, fixedRate: real, payFixed: bool, annuity: real) returns (v: Valuation)
    ensures SwapOfZero(Ok(z), move, fixedRate, payFixed, annuity) == Ok(v)
    ensures v.marketValue == Sign(payFixed) * (z - fixedRate) * annuity && v.dv01 == Sign(payFixed) * (move * annuity)
  {
    v := SwapOfZero(Ok(z), move, fixedRate, payFixed, annuity).value;
    SwapPvMoves(z, move, z + move, payFixed, fixedRate, annuity, v.dv01);
  }

  /** What a parallel shock does to a zero a swap reads, in steps of what the pricer's own bump does. */
  lemma ZeroAfter(m: Marks, currency: string, t: real, a: real, m': Marks) returns (z: real, step: real)
    requires RequiredZero(m, currency, t, false).Ok? && ApplyOne(m, Snapshots.Shock(RateZero(currency, "PARALLEL"), a)) == Ok(m')
    ensures currency in m.rates && currency in m'.rates
    ensures RequiredZero(m, currency, t, false) == Ok(z) && RequiredZero(m', currency, t, false) == Ok(z + step)
    ensures step * ONE_BP == a * RateMove(m, currency)
  {
    assert TenorOf("PARALLEL") == None;
    assert currency in m.rates && m' == ShiftRates(m, currency, None, a);
    ParallelShockMovesZero(m, currency, t, false, a);
    z := RequiredZero(m, currency, t, false).value;
    step := if Moves(PathOf(m, currency, false), currency) then a else 0.0;
  }

  lemma SwapNeedsZero(e: Economics, duration: real, m: Marks, maths: Maths)
    requires e.Swap? && Contractual(e) && Priced(e, duration, m, maths).Ok?
    ensures RequiredZero(m, e.currency, e.maturity, false).Ok?
  {
  }

  /** A swap gains exactly what its DV01 predicts of a parallel shock of any size, even where the shock misses its rate. */
  lemma SwapRepriced(e: Economics, duration: real, m: Marks, m': Marks, a: real, methodology: Methodology, baseVol: real, maths: Maths)
    requires e.Swap? && Contractual(e) && !methodology.FULL_REVALUATION? && Priced(e, duration, m, maths).Ok?
    requires ApplyOne(m, Snapshots.Shock(RateZero(e.currency, "PARALLEL"), a)) == Ok(m')
    ensures Gained(Priced(e, duration, m, maths), Priced(e, duration, m', maths),
                   Predicted(Priced(e, duration, m, maths), MacroMove(0.0, 0.0, a * 10000.0, 0.0), methodology, baseVol))
  {
    hide *;
    SwapNeedsZero(e, duration, m, maths);
    var z, step := ZeroAfter(m, e.currency, e.maturity, a, m');
    var annuity := e.notional * duration;
    var v := SwapAt(m, e, duration, z, annuity, maths);
    var v' := SwapAt(m', e, duration, z + step, annuity, maths);
    SwapGain(Sign(e.payFixed), z, step, a, RateMove(m, e.currency), e.fixedRate, annuity, v.dv01);
    RateOnly(v, a * 10000.0, methodology, baseVol);
    GainedFrom(v, v', Predicted(Ok(v), MacroMove(0.0, 0.0, a * 10000.0, 0.0), methodology, baseVol));
  }

  lemma IrFutureGain(f: real, step: real, quoted: real, quantity: real, pv01: real)
    ensures IrFutureAt(f + step, quoted, quantity, pv01).marketValue - IrFutureAt(f, quoted, quantity, pv01).marketValue
      == IrFutureAt(f, quoted, quantity, pv01).dv01 * (step * 10000.0)
  {
    var c := quantity * pv01;
    assert c * (quoted - (f + step)) == c * (quoted - f) - c * step;
  }

  lemma IrFutureNeeds(e: Economics, duration: real, m: Marks, maths: Maths) returns (f: real, quoted: real)
    requires e.IrFuture? && Contractual(e) && Priced(e, duration, m, maths).Ok?
    ensures e.pv01 > 0.0 && RequiredZero(m, e.currency, e.maturity, true) == Ok(f) && Mark(m.irFutureQuotes, e.currency) == Ok(quoted)
  {
    f, quoted := RequiredZero(m, e.currency, e.maturity, true).value, m.irFutureQuotes[e.currency];
  }

  lemma IrFuturePriced(e: Economics, duration: real, m: Marks, f: real, quoted: real, maths: Maths)
    requires e.IrFuture? && Contractual(e)
    requires RequiredZero(m, e.currency, e.maturity, true) == Ok(f) && Mark(m.irFutureQuotes, e.currency) == Ok(quoted)
    ensures Priced(e, duration, m, maths) == Ok(IrFutureAt(f, quoted, e.quantity, e.pv01))
  {
  }

  lemma ProjectedAfter(m: Marks, currency: string, t: real, a: real, m': Marks, f: real, step: real)
    requires currency in m.rates && RequiredZero(m, currency, t, true) == Ok(f)
    requires ApplyOne(m, Snapshots.Shock(RateZero(currency, "PARALLEL"), a)) == Ok(m')
    requires step == if Moves(PathOf(m, currency, true), currency) then a else 0.0
    ensures RequiredZero(m', currency, t, true) == Ok(f + step) && m'.irFutureQuotes == m.irFutureQuotes
  {
    ParallelShocked(m, currency, a);
    ParallelShockMovesZero(m, currency, t, true, a);
  }

  lemma StatedDv01(forward: real, quoted: real, quantity: real, pv01: real)
    ensures IrFutureAt(forward, quoted, quantity, pv01).dv01 == -quantity * pv01
  {
  }

  lemma IrFutureRepriced(e: Economics, duration: real, m: Marks, m': Marks, a: real, maths: Maths) returns (v: Valuation, step: real)
    requires e.IrFuture? && Contractual(e) && e.currency in m.rates && Priced(e, duration, m, maths).Ok?
    requires ApplyOne(m, Snapshots.Shock(RateZero(e.currency, "PARALLEL"), a)) == Ok(m')
    ensures Priced(e, duration, m, maths) == Ok(v) && step == (if Moves(PathOf(m, e.currency, true), e.currency) then a else 0.0)
    ensures v.dv01 == -e.quantity * e.pv01 && e.pv01 > 0.0
    ensures Gained(Ok(v), Priced(e, duration, m', maths), v.dv01 * (step * 10000.0))
  {
    hide *;
    var f, quoted := IrFutureNeeds(e, duration, m, maths);
    step := if Moves(PathOf(m, e.currency, true), e.currency) then a else 0.0;
    ProjectedAfter(m, e.currency, e.maturity, a, m', f, step);
    IrFuturePriced(e, duration, m, f, quoted, maths);
    IrFuturePriced(e, duration, m', f + step, quoted, maths);
    v := IrFutureAt(f, quoted, e.quantity, e.pv01);
    StatedDv01(f, quoted, e.quantity, e.pv01);
    IrFutureGain(f, step, quoted, e.quantity, e.pv01);
    GainedFrom(v, IrFutureAt(f + step, quoted, e.quantity, e.pv01), v.dv01 * (step * 10000.0));
  }

  /**
   * A rate future gains what its DV01 predicts of a parallel shock exactly when the shock moves the rate it is projected from,
   * or nothing is at stake: its DV01 is stated, not measured.
   */
  lemma IrFutureRepricedExactly(e: Economics, duration: real, m: Marks, m': Marks, a: real, methodology: Methodology, baseVol: real, maths: Maths)
    requires e.IrFuture? && Contractual(e) && !methodology.FULL_REVALUATION? && e.currency in m.rates && Priced(e, duration, m, maths).Ok?
    requires ApplyOne(m, Snapshots.Shock(RateZero(e.currency, "PARALLEL"), a)) == Ok(m')
    ensures Gained(Priced(e, duration, m, maths), Priced(e, duration, m', maths),
                   Predicted(Priced(e, duration, m, maths), MacroMove(0.0, 0.0, a * 10000.0, 0.0), methodology, baseVol))
      <==> Moves(PathOf(m, e.currency, true), e.currency) || e.quantity == 0.0 || a == 0.0
  {
    hide *;
    var v, step := IrFutureRepriced(e, duration, m, m', a, maths);
    RateOnly(v, a * 10000.0, methodology, baseVol);
    GainedOnce(Ok(v), Priced(e, duration, m', maths), v.dv01 * (step * 10000.0),
               Predicted(Ok(v), MacroMove(0.0, 0.0, a * 10000.0, 0.0), methodology, baseVol));
    Stakes(v.dv01, e.quantity, e.pv01, a, step);
  }

  lemma Stakes(dv01: real, quantity: real, pv01: real, a: real, step: real)
    requires dv01 == -quantity * pv01 && pv01 > 0.0 && (step == a || step == 0.0)
    ensures dv01 * (a * 10000.0) == dv01 * (step * 10000.0) <==> (step == a || quantity == 0.0 || a == 0.0)
  {
    if step == 0.0 && dv01 * (a * 10000.0) == 0.0 && a != 0.0 {
      MulCancelEq(dv01, 0.0, a * 10000.0);
      MulCancelEq(quantity, 0.0, pv01);
    }
  }

  lemma QuoteGap(c: real, f: real, quoted: real)
    ensures c * (quoted - f) * 10000.0 == -c * ((f - quoted) * 10000.0)
  {
  }

  /** A rate future is worth its DV01 for every basis point the forward stands above the quote. */
  lemma IrFutureIsDv01(e: Economics, duration: real, m: Marks, maths: Maths) returns (v: Valuation, f: real, quoted: real)
    requires e.IrFuture? && Contractual(e) && Priced(e, duration, m, maths).Ok?
    ensures Priced(e, duration, m, maths) == Ok(v)
    ensures RequiredZero(m, e.currency, e.maturity, true) == Ok(f) && Mark(m.irFutureQuotes, e.currency) == Ok(quoted)
    ensures v.marketValue == v.dv01 * ((f - quoted) * 10000.0)
  {
    f, quoted := IrFutureNeeds(e, duration, m, maths);
    IrFuturePriced(e, duration, m, f, quoted, maths);
    v := IrFutureAt(f, quoted, e.quantity, e.pv01);
    QuoteGap(e.quantity * e.pv01, f, quoted);
  }

  lemma SwapNeedsRate(e: Economics, duration: real, m: Marks, maths: Maths)
    requires e.Swap? && Contractual(e) && Priced(e, duration, m, maths).Ok?
    ensures e.currency in m.rates
  {
    ParallelBump(m, e.currency);
  }

  lemma SpreadTimes(sign: real, spread: real, annuity: real, move: real, v: real, dv01: real)
    requires v == sign * spread * annuity && dv01 == sign * (move * annuity)
    ensures v * move == dv01 * spread
  {
    assert v * move == sign * spread * annuity * move;
    assert dv01 * spread == sign * (move * annuity) * spread;
  }

  /** A swap is worth its DV01 for every basis point, as its bump moves the rate, that the rate stands above the fixed one. */
  lemma SwapIsDv01(e: Economics, duration: real, m: Marks, maths: Maths) returns (v: Valuation, z: real)
    requires e.Swap? && Contractual(e) && Priced(e, duration, m, maths).Ok?
    ensures Priced(e, duration, m, maths) == Ok(v) && RequiredZero(m, e.currency, e.maturity, false) == Ok(z)
    ensures v.marketValue * RateMove(m, e.currency) == v.dv01 * (z - e.fixedRate)
  {
    hide *;
    SwapNeedsZero(e, duration, m, maths);
    SwapNeedsRate(e, duration, m, maths);
    z := RequiredZero(m, e.currency, e.maturity, false).value;
    var annuity := e.notional * duration;
    v := SwapAt(m, e, duration, z, annuity, maths);
    SpreadTimes(Sign(e.payFixed), z - e.fixedRate, annuity, RateMove(m, e.currency), v.marketValue, v.dv01);
  }

  // ----- where the value bends -----

  /** exp lies above its tangent. */
  ghost predicate Convex(exp: real -> real) {
    forall x :: exp(x) >= 1.0 + x
  }

  lemma Tangent(x: real, maths: Maths)
    requires Convex(maths.exp)
    ensures maths.exp(x) >= 1.0 + x
  {
  }

  /** The value gains at least what the DV01 before predicts, and at most what the DV01 after does. */
  predicate SlopesUp(gain: real, before: real, after: real, bps: real) {
    before * bps <= gain <= after * bps
  }

  lemma GrowthBounds(v: real, v': real, up: real, down: real, x: real)
    requires v >= 0.0 && v' == v * up && v == v' * down && up >= 1.0 + x && down >= 1.0 - x && v' >= 0.0
    ensures v * x <= v' - v <= v' * x
  {
    MulMonotone(1.0 + x, up, v);
    MulMonotone(1.0 - x, down, v');
    assert v * (1.0 + x) == v + v * x;
    assert v' * (1.0 - x) == v' - v' * x;
  }

  lemma FutureCarried(s: real, r: real, q: real, quantity: real, multiplier: real, t: real, a: real, maths: Maths)
    requires Multiplicative(maths.exp)
    ensures EquityFutureAt(s, r + a, q, quantity, multiplier, t, maths).marketValue
         == EquityFutureAt(s, r, q, quantity, multiplier, t, maths).marketValue * maths.exp(a * t)
  {
    hide *;
    var v, f := FutureParts(s, r, q, quantity, multiplier, t, maths);
    var r' := r + a;
    var v', g := FutureParts(s, r', q, quantity, multiplier, t, maths);
    var x, y, z := (r - q) * t, a * t, (r' - q) * t;
    var h := SumOfRates(x, y, z, f, g, maths);
    Carried(quantity * multiplier, s, f, h, g, v, v');
  }

  lemma FutureParts(s: real, r: real, q: real, quantity: real, multiplier: real, t: real, maths: Maths) returns (v: real, f: real)
    ensures v == EquityFutureAt(s, r, q, quantity, multiplier, t, maths).marketValue
    ensures f == maths.exp((r - q) * t) && v == quantity * multiplier * (s * f)
  {
    v, f := EquityFutureAt(s, r, q, quantity, multiplier, t, maths).marketValue, maths.exp((r - q) * t);
  }

  lemma SumOfRates(x: real, y: real, z: real, f: real, g: real, maths: Maths) returns (h: real)
    requires Multiplicative(maths.exp) && z == x + y && f == maths.exp(x) && g == maths.exp(z)
    ensures h == maths.exp(y) && g == f * h
  {
    h := maths.exp(y);
  }

  lemma Carried(c: real, s: real, f: real, h: real, g: real, v: real, v': real)
    requires g == f * h && v == c * (s * f) && v' == c * (s * g)
    ensures v' == v * h
  {
    MulAssoc(s, f, h);
    MulAssoc(c, s * f, h);
  }

  lemma FutureDv01(s: real, r: real, q: real, quantity: real, multiplier: real, t: real, maths: Maths)
    ensures var v := EquityFutureAt(s, r, q, quantity, multiplier, t, maths); v.dv01 == v.marketValue * t * 0.0001
  {
  }

  lemma PerPoint(v: real, t: real, a: real)
    ensures v * t * 0.0001 * (a * 10000.0) == v * (a * t)
  {
  }

  lemma Shrinks(v: real, v': real, up: real, down: real)
    requires v' == v * up && up * down == 1.0
    ensures v == v' * down
  {
    MulAssoc(v, up, down);
  }

  lemma ExpInverse(x: real, maths: Maths)
    requires Positive(maths.exp) && Multiplicative(maths.exp)
    ensures maths.exp(x) * maths.exp(-x) == 1.0
  {
    ExpZero(maths);
    ExpSum(x, -x, 0.0, maths);
  }

  /** A long equity future: when the settlement rate moves, up or down, the reported DV01 is the slope of the value there. */
  lemma FutureDv01IsSlope(s: real, r: real, q: real, quantity: real, multiplier: real, t: real, a: real, maths: Maths)
    requires Positive(maths.exp) && Multiplicative(maths.exp) && Convex(maths.exp)
    requires EquityFutureAt(s, r, q, quantity, multiplier, t, maths).marketValue >= 0.0
    ensures var v, v' := EquityFutureAt(s, r, q, quantity, multiplier, t, maths), EquityFutureAt(s, r + a, q, quantity, multiplier, t, maths);
      SlopesUp(v'.marketValue - v.marketValue, v.dv01, v'.dv01, a * 10000.0)
  {
    hide *;
    var v, v' := EquityFutureAt(s, r, q, quantity, multiplier, t, maths), EquityFutureAt(s, r + a, q, quantity, multiplier, t, maths);
    FutureDv01(s, r, q, quantity, multiplier, t, maths);
    FutureDv01(s, r + a, q, quantity, multiplier, t, maths);
    FutureCarried(s, r, q, quantity, multiplier, t, a, maths);
    FutureBounds(v.marketValue, v'.marketValue, t, a, v.dv01, v'.dv01, maths);
  }

  lemma FutureBounds(v: real, v': real, t: real, a: real, dv01: real, dv01': real, maths: Maths)
    requires Positive(maths.exp) && Multiplicative(maths.exp) && Convex(maths.exp)
    requires v >= 0.0 && v' == v * maths.exp(a * t) && dv01 == v * t * 0.0001 && dv01' == v' * t * 0.0001
    ensures SlopesUp(v' - v, dv01, dv01', a * 10000.0)
  {
    var up, down := maths.exp(a * t), maths.exp(-(a * t));
    ExpInverse(a * t, maths);
    ExpPositive(a * t, maths);
    Tangent(a * t, maths);
    Tangent(-(a * t), maths);
    ProductNonNegative(v, up, v');
    Shrinks(v, v', up, down);
    GrowthBounds(v, v', up, down, a * t);
    PerPoint(v, t, a);
    PerPoint(v', t, a);
  }

  // ----- bonds -----

  lemma BondPaysFace(z: real, years: real, size: real, v: real, maths: Maths)
    requires Positive(maths.exp) && Multiplicative(maths.exp) && v == BondAt(z, years, size, maths)
    ensures v * maths.exp(z * years) == size
  {
    assert -z * years == -(z * years);
    ExpInverse(z * years, maths);
    MulAssoc(size, maths.exp(-(z * years)), maths.exp(z * years));
  }

  lemma BondParts(z: real, years: real, size: real, v: real, maths: Maths) returns (f: real)
    requires v == BondAt(z, years, size, maths)
    ensures f == maths.exp(-z * years) && v == size * f
  {
    f := maths.exp(-z * years);
  }

  lemma RateTimes(z: real, step: real, z': real, years: real)
    requires z' == z + step
    ensures -z' * years == -z * years + -(step * years)
  {
  }

  lemma BondMoves(z: real, step: real, years: real, size: real, v: real, v': real, maths: Maths)
    requires Multiplicative(maths.exp) && v == BondAt(z, years, size, maths) && v' == BondAt(z + step, years, size, maths)
    ensures v' == v * maths.exp(-(step * years))
  {
    hide *;
    var f := BondParts(z, years, size, v, maths);
    var z' := z + step;
    var g := BondParts(z', years, size, v', maths);
    RateTimes(z, step, z', years);
    var x, y, w := -z * years, -(step * years), -z' * years;
    var h := SumOfRates(x, y, w, f, g, maths);
    MulAssoc(size, f, h);
    Carried(1.0, size, f, h, g, v, v');
  }

  lemma BondNeeds(e: Economics, duration: real, m: Marks, maths: Maths) returns (z: real)
    requires e.Bond? && Contractual(e) && Priced(e, duration, m, maths).Ok?
    ensures e.faceValue > 0.0 && e.maturity > 0.0 && e == Bond(e.issuer, e.faceValue, e.quantity, e.maturity, e.currency)
    ensures e.currency in m.rates && RequiredZero(m, e.currency, e.maturity, false) == Ok(z)
  {
    ParallelBump(m, e.currency);
    z := RequiredZero(m, e.currency, e.maturity, false).value;
  }

  lemma YearsAre(curve: bool, t: real)
    ensures BondYears(curve, t) == if curve then t else Act365(t)
  {
  }

  lemma BondOfZeroIs(z: real, move: real, years: real, size: real, maths: Maths) returns (v: Valuation)
    ensures BondOfZero(Ok(z), move, years, size, maths) == Ok(v)
    ensures v.marketValue == BondAt(z, years, size, maths) && v.dv01 == BondAt(z + move, years, size, maths) - v.marketValue
  {
    v := BondOfZero(Ok(z), move, years, size, maths).value;
  }

  /**
   * Invested at its zero for the years to maturity, a bond's value grows to its face, and its DV01 is what the basis point the zero moved
   * takes off: the maturity as given on a curve, whole days on the scalar yield.
   */
  lemma BondGrowsToFace(e: Economics, duration: real, m: Marks, maths: Maths) returns (v: Valuation, z: real, move: real, years: real)
    requires e.Bond? && Contractual(e) && Positive(maths.exp) && Multiplicative(maths.exp) && Priced(e, duration, m, maths).Ok?
    ensures Priced(e, duration, m, maths) == Ok(v) && RequiredZero(m, e.currency, e.maturity, false) == Ok(z)
    ensures years == (if HasCurve(m, e.currency) then e.maturity else Act365(e.maturity))
    ensures v.marketValue * maths.exp(z * years) == e.faceValue * e.quantity
    ensures move == RateMove(m, e.currency) && v.marketValue + v.dv01 == v.marketValue * maths.exp(-(move * years))
  {
    hide *;
    years := if HasCurve(m, e.currency) then e.maturity else Act365(e.maturity);
    YearsAre(HasCurve(m, e.currency), e.maturity);
    z := BondNeeds(e, duration, m, maths);
    move := RateMove(m, e.currency);
    var size := e.faceValue * e.quantity;
    PricedBond(m, e.issuer, e.faceValue, e.quantity, e.maturity, e.currency, duration, size, maths);
    v := BondOfZeroIs(z, move, years, size, maths);
    BondPaysFace(z, years, size, v.marketValue, maths);
    BondMoves(z, move, years, size, v.marketValue, v.marketValue + v.dv01, maths);
  }

  /** The day count of the scalar path: a whole number of days, the nearest to the maturity, and one at least. */
  lemma WholeDays(t: real) returns (days: nat)
    ensures Act365(t) * 365.0 == days as real && days >= 1
    ensures t * 365.0 >= 0.5 ==> -0.5 <= days as real - t * 365.0 <= 0.5
    ensures t * 365.0 < 0.5 ==> days == 1
  {
    days := AtLeastOne(Round(t * 365.0));
    Quotient(days as real, 365.0);
  }

  // ----- vols -----

  lemma VolShocked(m: Marks, symbol: string, x: real, m': Marks)
    requires symbol !in m.volSurfaces && ApplyOne(m, Snapshots.Shock(EquityVol(symbol, "GENERIC", "ATM"), x)) == Ok(m')
    ensures symbol in m.equityVols && m' == m.(equityVols := m.equityVols[symbol := V.Floor(Grow(m.equityVols[symbol], x))])
  {
  }

  lemma OptionNeeds(e: Economics, duration: real, m: Marks, maths: Maths) returns (s: real, r: real, q: real)
    requires e.EuropeanOption? && Contractual(e) && e.symbol in m.equityVols && e.symbol !in m.volSurfaces && Priced(e, duration, m, maths).Ok?
    ensures e.maturity > 0.0
    ensures Mark(m.equitySpots, e.symbol) == Ok(s) && Mark(m.rates, e.currency) == Ok(r) && Mark(m.dividendYields, e.symbol) == Ok(q)
  {
    s, r, q := m.equitySpots[e.symbol], m.rates[e.currency], m.dividendYields[e.symbol];
  }

  lemma OptionPriced(e: Economics, duration: real, m: Marks, s: real, sigma: real, r: real, q: real, maths: Maths)
    requires e.EuropeanOption? && Contractual(e) && e.symbol !in m.volSurfaces && Mark(m.equityVols, e.symbol) == Ok(sigma)
    requires Mark(m.equitySpots, e.symbol) == Ok(s) && Mark(m.rates, e.currency) == Ok(r) && Mark(m.dividendYields, e.symbol) == Ok(q)
    ensures Priced(e, duration, m, maths) == EuropeanOptionAt(s, sigma, r, q, e.quantity, e.strike, e.maturity, e.call, maths)
  {
  }

  lemma RaisedVol(sigma: real, x: real)
    requires sigma >= V.MIN_VOL && x >= 0.0
    ensures V.Floor(Grow(sigma, x)) == Grow(sigma, x) && sigma <= Grow(sigma, x)
    ensures (Grow(sigma, x) - sigma) * 100.0 == RelativeVolMoveToVolPoints(x, sigma)
  {
    ProductNonNegative(sigma, x, sigma * x);
    GrowIs(sigma, x);
  }

  lemma VolOnly(v: Valuation, x: real, methodology: Methodology, baseVol: real, points: real)
    requires !methodology.FULL_REVALUATION? && points == RelativeVolMoveToVolPoints(x, baseVol)
    ensures Predicted(Ok(v), MacroMove(0.0, x, 0.0, 0.0), methodology, baseVol) == v.vega * points
  {
    MulZero(0.5 * v.gamma * 0.0, 0.0);
  }

  lemma VolsRaised(e: Economics, duration: real, m: Marks, m': Marks, x: real, sigma: real, maths: Maths) returns (s: real, r: real, q: real)
    requires e.EuropeanOption? && Contractual(e) && e.symbol !in m.volSurfaces && Mark(m.equityVols, e.symbol) == Ok(sigma) && sigma >= V.MIN_VOL && x >= 0.0
    requires Priced(e, duration, m, maths).Ok? && ApplyOne(m, Snapshots.Shock(EquityVol(e.symbol, "GENERIC", "ATM"), x)) == Ok(m')
    ensures e.maturity > 0.0 && sigma > 0.0
    ensures e.symbol in m.equitySpots && m.equitySpots[e.symbol] == s && e.currency in m.rates && m.rates[e.currency] == r
    ensures e.symbol in m.dividendYields && m.dividendYields[e.symbol] == q
    ensures Priced(e, duration, m, maths) == EuropeanOptionAt(s, sigma, r, q, e.quantity, e.strike, e.maturity, e.call, maths)
    ensures Priced(e, duration, m', maths) == EuropeanOptionAt(s, Grow(sigma, x), r, q, e.quantity, e.strike, e.maturity, e.call, maths)
  {
    VolShocked(m, e.symbol, x, m');
    RaisedVol(sigma, x);
    s, r, q := OptionNeeds(e, duration, m, maths);
    OptionPriced(e, duration, m, s, sigma, r, q, maths);
    OptionPriced(e, duration, m', s, Grow(sigma, x), r, q, maths);
  }

  /**
   * A long option struck at the forward, on a scalar vol that is raised by x of itself: the approximate P&L, which counts that in points of
   * the base vol, is no less than what repricing gains, and repricing gains no less than the vega it ends with says.
   */
  lemma OptionVolRepriced(e: Economics, duration: real, m: Marks, m': Marks, x: real, sigma: real, methodology: Methodology, maths: Maths)
    returns (v: Valuation, v': Valuation, points: real)
    requires Elementary(maths) && Symmetric(maths.cdf) && Density(maths.cdf, maths.pdf) && !methodology.FULL_REVALUATION?
    requires e.EuropeanOption? && Contractual(e) && e.symbol !in m.volSurfaces && e.quantity >= 0.0 && e.strike > 0.0
    requires Mark(m.equityVols, e.symbol) == Ok(sigma) && sigma >= V.MIN_VOL && x >= 0.0
    requires e.symbol in m.equitySpots && e.symbol in m.dividendYields && e.currency in m.rates && m.equitySpots[e.symbol] > 0.0
    requires m.equitySpots[e.symbol] * Discount(m.dividendYields[e.symbol], e.maturity, maths) == e.strike * Discount(m.rates[e.currency], e.maturity, maths)
    requires ApplyOne(m, Snapshots.Shock(EquityVol(e.symbol, "GENERIC", "ATM"), x)) == Ok(m')
    requires Priced(e, duration, m, maths).Ok? && Priced(e, duration, m', maths).Ok?
    ensures Priced(e, duration, m, maths) == Ok(v) && Priced(e, duration, m', maths) == Ok(v')
    ensures points == RelativeVolMoveToVolPoints(x, sigma)
    ensures v'.vega * points <= v'.marketValue - v.marketValue <= Predicted(Ok(v), MacroMove(0.0, x, 0.0, 0.0), methodology, sigma)
  {
    hide *;
    var s, r, q := VolsRaised(e, duration, m, m', x, sigma, maths);
    v, v' := Priced(e, duration, m, maths).value, Priced(e, duration, m', maths).value;
    RaisedVol(sigma, x);
    points := RelativeVolMoveToVolPoints(x, sigma);
    VegaIsSlope(s, sigma, Grow(sigma, x), r, q, e.quantity, e.strike, e.maturity, e.call, s * Discount(q, e.maturity, maths), maths);
    SlopeIs(v'.marketValue - v.marketValue, v.vega, v'.vega, points);
    VolOnly(v, x, methodology, sigma, points);
  }

  lemma SlopeIs(gain: real, before: real, after: real, points: real)
    requires SlopesDown(gain, before, after, points)
    ensures after * points <= gain <= before * points
  {
  }
}
