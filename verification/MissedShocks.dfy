/** Two markets in which a parallel shock does not reach the rate an instrument is priced from (domain/models.py, pricing/curve_rates.py). */
module MissedShocks {
  import opened Wrappers
  import opened Strings
  import opened RealMath
  import opened Factors
  import opened Curves
  import opened Snapshots
  import opened CurveRates
  import opened HistoricalEngine
  import opened Builtin
  import opened ValuationKeys

  // ----- key rates under another case -----

  /** Key rates stored as USD, a scalar rate stored as usd. */
  function UpperCaseMarket(rate: real, zero: real): Marks {
    NO_MARKS.(rates := map["usd" := rate], keyRates := map["USD" := map["1Y" := zero]])
  }

  lemma OneYearParses()
    ensures TenorToYears("1Y") == Some(1.0)
  {
    assert Strings.Strip("1Y") == "1Y";
    assert Upper("1Y") == "1Y";
  }

  lemma OnePillar(zero: real)
    ensures PillarNodes(map["1Y" := zero]) == {CurveNode("1Y", 1.0, zero)}
  {
    OneYearParses();
  }

  lemma OneNodeOrdered(n: CurveNode)
    ensures InOrder({n}) == [n]
  {
    InOrderLists({n});
    assert InOrder({n})[0] in InOrder({n});
  }

  lemma UpperCaseBuilt(zero: real)
    ensures BuildCurve("USD_KEY", CurvePayload("USD", "discount", "USD_KEY", map["1Y" := zero]))
         == Ok(Some(YieldCurve("USD", Discount, "USD_KEY", [CurveNode("1Y", 1.0, zero)])))
  {
    var n := CurveNode("1Y", 1.0, zero);
    OnePillar(zero);
    OneNodeOrdered(n);
    assert DistinctYears({n});
  }

  lemma UpperCaseSelected(rate: real, zero: real)
    ensures var m := UpperCaseMarket(rate, zero);
      && KeyRateKey(m.keyRates, "usd") == Some("USD") && Candidates(m.curves, "usd") == Ok([])
      && Select(m, "usd", false) == Ok(Some(YieldCurve("USD", Discount, "USD_KEY", [CurveNode("1Y", 1.0, zero)])))
  {
    var m := UpperCaseMarket(rate, zero);
    assert Upper("usd") == "USD";
    assert "USD" + "_KEY" == "USD_KEY";
    assert m.keyRates["USD"] == map["1Y" := zero] && "1Y" in m.keyRates["USD"];
    assert "usd" !in m.keyRates;
    UpperCaseBuilt(zero);
  }

  lemma UpperCaseZero(rate: real, zero: real, t: real)
    requires t >= 0.0
    ensures var m := UpperCaseMarket(rate, zero);
      RequiredZero(m, "usd", t, false) == Ok(zero) && RateMove(m, "usd") == 0.0
  {
    UpperCaseSelected(rate, zero);
  }

  /** A swap in usd is priced there from the key rates of USD, which its bump misses: it reports no DV01, whatever its annuity. */
  lemma UpperCaseKeyRatesMissed(rate: real, zero: real, notional: real, t: real, fixedRate: real, payFixed: bool, duration: real)
    requires t > 0.0
    ensures var v := SwapValue(UpperCaseMarket(rate, zero), "usd", notional, t, fixedRate, payFixed, duration);
      v.Ok? && v.value.dv01 == 0.0
  {
    var m := UpperCaseMarket(rate, zero);
    UpperCaseZero(rate, zero, t);
    RateAfterBump(m, "usd", t);
    SwapValueAt(m, "usd", t, fixedRate, payFixed, notional * duration, zero, zero);
  }

  // ----- a scalar projection rate -----

  function ProjectionMarket(currency: string, rate: real, projection: real, quote: real): Marks {
    NO_MARKS.(rates := map[currency := rate], projectionRates := map[currency := projection], irFutureQuotes := map[currency := quote])
  }

  /** A rate future is priced there from the scalar projection rate, which no parallel shock moves, so its value does not answer to one. */
  lemma ProjectionRateMissed(currency: string, rate: real, projection: real, quote: real, quantity: real, pv01: real, t: real, a: real)
    ensures var m := ProjectionMarket(currency, rate, projection, quote);
      && ApplyMarks(m, [Snapshots.Shock(RateZero(currency, "PARALLEL"), a)]) == Ok(ShiftRates(m, currency, None, a))
      && RequiredZero(m, currency, t, true) == RequiredZero(ShiftRates(m, currency, None, a), currency, t, true) == Ok(projection)
      && IrFutureValue(ShiftRates(m, currency, None, a), currency, quantity, pv01, t) == IrFutureValue(m, currency, quantity, pv01, t)
      && IrFutureValue(m, currency, quantity, pv01, t) == Ok(IrFutureAt(projection, quote, quantity, pv01))
  {
    var m, shock := ProjectionMarket(currency, rate, projection, quote), Snapshots.Shock(RateZero(currency, "PARALLEL"), a);
    assert PathOf(m, currency, true) == FromProjection;
    ParallelShockMovesZero(m, currency, t, true, a);
    assert [shock][1..] == [];
    assert TenorOf("PARALLEL") == None;
    assert ApplyOne(m, shock) == ShockRate(m, currency, None, a);
  }
}
