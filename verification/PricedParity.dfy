/**
 * The option parities between positions as the engine prices them, and when it prices them at all
 * (pricing/builtin.py: BuiltinPricingEngine.value and its handlers).
 */
module PricedParity {
  import opened Wrappers
  import opened RealMath
  import opened Vectors
  import opened Snapshots
  import opened CurveRates
  import opened HistoricalEngine
  import opened Builtin
  import opened Parity
  import opened BlackBounds
  import opened FxDuality

  // ----- which options are priced -----

  lemma UnitPriced(d1: real, s: real, k: real, ds: real, dk: real, sigma: real, sqrtT: real, call: bool, maths: Maths)
    requires s * sigma * sqrtT != 0.0
    ensures GreeksFrom(Ok(d1), s, k, ds, dk, sigma, sqrtT, call, maths).Ok?
  {
  }

  lemma NotZero(s: real, v: real, sigma: real, sqrtT: real)
    requires s != 0.0 && v == sigma * sqrtT
    ensures s * sigma * sqrtT != 0.0 <==> v != 0.0
  {
    MulAssoc(s, sigma, sqrtT);
    if s * v == 0.0 && v != 0.0 {
      MulCancelEq(s, 0.0, v);
    }
  }

  lemma RatioNotZero(s: real, k: real)
    requires k != 0.0 && s / k > 0.0
    ensures s != 0.0
  {
    Quotient(s, k);
  }

  /** An equity option is priced exactly when spot and strike have one sign and the total volatility is not zero. */
  lemma OptionPricedExactly(s: real, sigma: real, r: real, q: real, quantity: real, k: real, t: real, call: bool, maths: Maths)
    ensures EuropeanOptionAt(s, sigma, r, q, quantity, k, t, call, maths).Ok? <==> (k != 0.0 && s / k > 0.0 && sigma * maths.sqrt(t) != 0.0)
  {
    if k != 0.0 {
      D1Is(s / k, Drift(r - q, sigma, t), sigma, maths.sqrt(t), sigma * maths.sqrt(t), maths);
      if s / k > 0.0 && sigma * maths.sqrt(t) != 0.0 {
        RatioNotZero(s, k);
        NotZero(s, sigma * maths.sqrt(t), sigma, maths.sqrt(t));
        var d := D1(s / k, Drift(r - q, sigma, t), sigma, maths.sqrt(t), maths);
        UnitPriced(d.value, s, k, Discount(q, t, maths), Discount(r, t, maths), sigma, maths.sqrt(t), call, maths);
      }
    }
  }

  lemma OptionletPriced(forward: real, k: real, sigma: real, expiry: real, long: bool, maths: Maths)
    requires k > 0.0 && forward > 0.0
    ensures Optionlet(forward, k, sigma, expiry, long, maths).Ok? <==> sigma * maths.sqrt(expiry) != 0.0
  {
    Quotient(forward, k);
    var x := forward / k;
    if x <= 0.0 {
      ProductNonNegative(-x, k, -x * k);
      assert false;
    }
    D1Is(forward / k, 0.5 * sigma * sigma * expiry, sigma, maths.sqrt(expiry), sigma * maths.sqrt(expiry), maths);
  }

  lemma WeightedPriced(weight: real, f: real, k: real, sigma: real, expiry: real, long: bool, message: string, maths: Maths)
    requires k > 0.0
    ensures Weighted(weight, f, Optionlet(f, k, sigma, expiry, long, maths), message).Ok? <==> (f > 0.0 && sigma * maths.sqrt(expiry) != 0.0)
    ensures f <= 0.0 ==> Weighted(weight, f, Optionlet(f, k, sigma, expiry, long, maths), message) == Err(message)
  {
    if f > 0.0 {
      OptionletPriced(f, k, sigma, expiry, long, maths);
    }
  }

  lemma PositiveRoot(sigma: real, t: real, maths: Maths)
    requires Root(maths.sqrt) && t > 0.0 && sigma > 0.0
    ensures sigma * maths.sqrt(t) != 0.0
  {
    var x := maths.sqrt(t);
    assert x != 0.0;
    ProductPositive(sigma, x, sigma * x);
  }

  /** A swaption with a vol, a forward and a leg is priced exactly when the forward is positive, and refused with that reason otherwise. */
  lemma SwaptionPricedExactly(annuity: real, f: real, k: real, vol: real, t: real, payer: bool, maths: Maths)
    requires Root(maths.sqrt) && k > 0.0 && t > 0.0
    ensures SwaptionOf(annuity, f, k, vol, t, payer, maths).Ok? <==> f > 0.0
    ensures f <= 0.0 ==> SwaptionOf(annuity, f, k, vol, t, payer, maths) == Err("Black swaption pricing requires a positive forward swap rate")
  {
    var sigma := Max(0.00000001, vol);
    PositiveRoot(sigma, t, maths);
    WeightedPriced(annuity, f, k, sigma, t, payer, "Black swaption pricing requires a positive forward swap rate", maths);
  }

  /** So is an optionlet of a cap or floor. */
  lemma CapletPricedExactly(weight: real, f: real, s: Strip, i: nat, cap: bool, maths: Maths)
    requires Root(maths.sqrt) && s.strike > 0.0 && s.sigma > 0.0
    ensures CapletAt(weight, f, s, i, cap, maths).Ok? <==> f + s.shift > 0.0
    ensures f + s.shift <= 0.0 ==> CapletAt(weight, f, s, i, cap, maths) == Err("Black cap/floor pricing requires a positive forward rate")
  {
    PositiveRoot(s.sigma, ExpiryTime(s, i), maths);
    WeightedPriced(weight, f + s.shift, s.strike, s.sigma, ExpiryTime(s, i), cap, "Black cap/floor pricing requires a positive forward rate", maths);
  }

  // ----- positions that differ in the side only -----

  lemma PricedSwaption(m: Marks, currency: string, notional: real, quantity: real, k: real, t: real, tenor: real, payer: bool, frequency: nat,
                       duration: real, forward: real, scale: real, maths: Maths)
    requires scale == quantity * notional && Contractual(Swaption(currency, notional, quantity, k, t, tenor, payer, frequency)) && k > 0.0
    requires RequiredZero(m, currency, t, true) == Ok(forward) && RequiredZero(m, currency, t + tenor, false).Ok?
    requires OptionVol(m.volSurfaces, m.irVols, currency, t, k, forward).Ok?
    ensures Priced(Swaption(currency, notional, quantity, k, t, tenor, payer, frequency), duration, m, maths)
         == SwaptionValue(m, currency, scale, k, t, tenor, payer, frequency, forward, maths)
  {
    hide OptionVol, RequiredZero, SwaptionValue;
    assert ScaleOf(quantity, notional) == scale;
  }

  lemma SwaptionNeeds(m: Marks, currency: string, notional: real, quantity: real, k: real, t: real, tenor: real, payer: bool, frequency: nat,
                      duration: real, maths: Maths) returns (forward: real)
    requires Contractual(Swaption(currency, notional, quantity, k, t, tenor, payer, frequency))
    requires Priced(Swaption(currency, notional, quantity, k, t, tenor, payer, frequency), duration, m, maths).Ok?
    ensures k > 0.0 && Contractual(Swaption(currency, notional, quantity, k, t, tenor, !payer, frequency))
    ensures RequiredZero(m, currency, t, true) == Ok(forward) && RequiredZero(m, currency, t + tenor, false).Ok?
    ensures OptionVol(m.volSurfaces, m.irVols, currency, t, k, forward).Ok?
  {
    forward := RequiredZero(m, currency, t, true).value;
  }

  /** A payer and the receiver of the same terms, as the engine prices them: apart by the forward swap over quantity times notional. */
  lemma PayerReceiver(m: Marks, currency: string, notional: real, quantity: real, k: real, t: real, tenor: real, frequency: nat,
                      duration: real, maths: Maths) returns (scale: real, g: real, h: real)
    requires Contractual(Swaption(currency, notional, quantity, k, t, tenor, true, frequency)) && Symmetric(maths.cdf)
    requires Priced(Swaption(currency, notional, quantity, k, t, tenor, true, frequency), duration, m, maths).Ok?
    ensures k > 0.0 && Contractual(Swaption(currency, notional, quantity, k, t, tenor, false, frequency))
    ensures g == ForwardSwapAt(m, currency, k, t, tenor, frequency, 0.0, maths) && h == ForwardSwapAt(m, currency, k, t, tenor, frequency, ONE_BP, maths)
    ensures scale == quantity * notional
    ensures RatesApart(Priced(Swaption(currency, notional, quantity, k, t, tenor, true, frequency), duration, m, maths),
                       Priced(Swaption(currency, notional, quantity, k, t, tenor, false, frequency), duration, m, maths), scale * g, scale * h - scale * g)
  {
    hide *;
    var forward := SwaptionNeeds(m, currency, notional, quantity, k, t, tenor, true, frequency, duration, maths);
    scale := quantity * notional;
    PricedSwaption(m, currency, notional, quantity, k, t, tenor, true, frequency, duration, forward, scale, maths);
    PricedSwaption(m, currency, notional, quantity, k, t, tenor, false, frequency, duration, forward, scale, maths);
    g, h := SwaptionParity(m, currency, scale, k, t, tenor, frequency, forward, maths);
  }

  lemma PricedCap(m: Marks, currency: string, notional: real, quantity: real, k: real, t: real, cap: bool, frequency: nat, duration: real,
                  forward: real, scale: real, maths: Maths)
    requires scale == quantity * notional && Contractual(CapFloor(currency, notional, quantity, k, t, cap, frequency)) && k > 0.0
    requires RequiredZero(m, currency, t, true) == Ok(forward) && RequiredZero(m, currency, t, false).Ok?
    requires OptionVol(m.volSurfaces, m.irVols, currency, t, k, forward).Ok?
    ensures Priced(CapFloor(currency, notional, quantity, k, t, cap, frequency), duration, m, maths)
         == CapFloorValue(m, currency, scale, k, t, cap, frequency, forward, maths)
  {
    hide OptionVol, RequiredZero, CapFloorValue;
    assert ScaleOf(quantity, notional) == scale;
  }

  lemma CapNeeds(m: Marks, currency: string, notional: real, quantity: real, k: real, t: real, cap: bool, frequency: nat, duration: real,
                 maths: Maths) returns (forward: real)
    requires Contractual(CapFloor(currency, notional, quantity, k, t, cap, frequency))
    requires Priced(CapFloor(currency, notional, quantity, k, t, cap, frequency), duration, m, maths).Ok?
    ensures k > 0.0 && Contractual(CapFloor(currency, notional, quantity, k, t, !cap, frequency))
    ensures RequiredZero(m, currency, t, true) == Ok(forward) && RequiredZero(m, currency, t, false).Ok?
    ensures OptionVol(m.volSurfaces, m.irVols, currency, t, k, forward).Ok?
  {
    forward := RequiredZero(m, currency, t, true).value;
  }

  /** A cap and the floor of the same terms, as the engine prices them: apart by the strip over quantity times notional. */
  lemma CapAndFloor(m: Marks, currency: string, notional: real, quantity: real, k: real, t: real, frequency: nat, duration: real, maths: Maths)
    returns (forward: real, scale: real, g: real, h: real)
    requires Contractual(CapFloor(currency, notional, quantity, k, t, true, frequency)) && Symmetric(maths.cdf)
    requires Priced(CapFloor(currency, notional, quantity, k, t, true, frequency), duration, m, maths).Ok?
    ensures k > 0.0 && Contractual(CapFloor(currency, notional, quantity, k, t, false, frequency)) && RequiredZero(m, currency, t, true) == Ok(forward)
    ensures g == Strips(m, currency, k, t, frequency, forward, 0.0, maths) && h == Strips(m, currency, k, t, frequency, forward, ONE_BP, maths)
    ensures scale == quantity * notional
    ensures RatesApart(Priced(CapFloor(currency, notional, quantity, k, t, true, frequency), duration, m, maths),
                       Priced(CapFloor(currency, notional, quantity, k, t, false, frequency), duration, m, maths), scale * g, scale * h - scale * g)
  {
    hide *;
    forward := CapNeeds(m, currency, notional, quantity, k, t, true, frequency, duration, maths);
    scale := quantity * notional;
    PricedCap(m, currency, notional, quantity, k, t, true, frequency, duration, forward, scale, maths);
    PricedCap(m, currency, notional, quantity, k, t, false, frequency, duration, forward, scale, maths);
    g, h := CapFloorValueParity(m, currency, scale, k, t, frequency, forward, maths);
  }

  lemma PricedOption(m: Marks, symbol: string, quantity: real, k: real, t: real, call: bool, currency: string, sector: string, duration: real,
                     s: real, sigma: real, r: real, q: real, maths: Maths)
    requires t > 0.0 && Mark(m.equitySpots, symbol) == Ok(s) && Mark(m.rates, currency) == Ok(r) && Mark(m.dividendYields, symbol) == Ok(q)
    requires OptionVol(m.volSurfaces, m.equityVols, symbol, t, k, s) == Ok(sigma)
    ensures Priced(EuropeanOption(symbol, quantity, k, t, call, currency, sector), duration, m, maths)
         == EuropeanOptionAt(s, sigma, r, q, quantity, k, t, call, maths)
  {
  }

  lemma OptionMarks(m: Marks, symbol: string, quantity: real, k: real, t: real, call: bool, currency: string, sector: string, duration: real,
                    maths: Maths) returns (s: real, sigma: real, r: real, q: real)
    requires t > 0.0 && Priced(EuropeanOption(symbol, quantity, k, t, call, currency, sector), duration, m, maths).Ok?
    ensures Mark(m.equitySpots, symbol) == Ok(s) && Mark(m.rates, currency) == Ok(r) && Mark(m.dividendYields, symbol) == Ok(q)
    ensures OptionVol(m.volSurfaces, m.equityVols, symbol, t, k, s) == Ok(sigma)
  {
    s, r, q := m.equitySpots[symbol], m.rates[currency], m.dividendYields[symbol];
    sigma := OptionVol(m.volSurfaces, m.equityVols, symbol, t, k, s).value;
  }

  /** A call and the put of the same terms, as the engine prices them on the marks of its snapshot. */
  lemma CallAndPut(m: Marks, symbol: string, quantity: real, k: real, t: real, currency: string, sector: string, duration: real, maths: Maths)
    returns (s: real, r: real, q: real)
    requires t > 0.0 && Symmetric(maths.cdf) && Priced(EuropeanOption(symbol, quantity, k, t, true, currency, sector), duration, m, maths).Ok?
    ensures Mark(m.equitySpots, symbol) == Ok(s) && Mark(m.rates, currency) == Ok(r) && Mark(m.dividendYields, symbol) == Ok(q)
    ensures var ds, dk := Discount(q, t, maths), Discount(r, t, maths);
      EquityApart(Priced(EuropeanOption(symbol, quantity, k, t, true, currency, sector), duration, m, maths),
                  Priced(EuropeanOption(symbol, quantity, k, t, false, currency, sector), duration, m, maths),
                  quantity * (s * ds - k * dk), quantity * ds * s)
  {
    hide *;
    var sigma: real;
    s, sigma, r, q := OptionMarks(m, symbol, quantity, k, t, true, currency, sector, duration, maths);
    PricedOption(m, symbol, quantity, k, t, true, currency, sector, duration, s, sigma, r, q, maths);
    PricedOption(m, symbol, quantity, k, t, false, currency, sector, duration, s, sigma, r, q, maths);
    EuropeanParity(s, sigma, r, q, quantity, k, t, maths);
  }

  lemma PricedFx(m: Marks, pair: string, notional: real, k: real, t: real, call: bool, duration: real, maths: Maths)
    requires |pair| == 6 && k > 0.0 && t > 0.0 && FxOptionValue(m, pair, notional, k, t, call, maths).Ok?
    ensures Priced(Economics.FxOption(pair, notional, k, t, call), duration, m, maths) == FxOptionValue(m, pair, notional, k, t, call, maths)
    ensures Priced(FxForward(pair, notional, k, t), duration, m, maths) == FxForwardValue(m, pair, notional, k, t, maths)
  {
  }

  lemma FxNeeds(m: Marks, pair: string, notional: real, k: real, t: real, call: bool, duration: real, maths: Maths)
    requires |pair| == 6 && k > 0.0 && t > 0.0 && Priced(Economics.FxOption(pair, notional, k, t, call), duration, m, maths).Ok?
    ensures FxOptionValue(m, pair, notional, k, t, call, maths).Ok?
  {
  }

  /** Long a currency call and short the put, as the engine prices them, is worth the forward with their strike. */
  lemma CallPutForward(m: Marks, pair: string, notional: real, k: real, t: real, duration: real, maths: Maths)
    requires |pair| == 6 && k > 0.0 && t > 0.0 && Symmetric(maths.cdf) && Multiplicative(maths.exp)
    requires Priced(Economics.FxOption(pair, notional, k, t, true), duration, m, maths).Ok?
    ensures var c, p := Priced(Economics.FxOption(pair, notional, k, t, true), duration, m, maths),
                        Priced(Economics.FxOption(pair, notional, k, t, false), duration, m, maths);
      var f := Priced(FxForward(pair, notional, k, t), duration, m, maths);
      p.Ok? && f.Ok? && c.value.marketValue - p.value.marketValue == f.value.marketValue
  {
    hide *;
    FxNeeds(m, pair, notional, k, t, true, duration, maths);
    FxParity(m, pair, notional, k, t, maths);
    PricedFx(m, pair, notional, k, t, true, duration, maths);
    PricedFx(m, pair, notional, k, t, false, duration, maths);
  }
}
