/**
 * What the option formulas of the builtin pricer owe each other: put and call, cap and floor, payer and receiver
 * (pricing/builtin.py). The normal cdf is taken to be symmetric, and exp to turn sums into products.
 */
module Parity {
  import opened Wrappers
  import opened RealMath
  import opened Vectors
  import opened Snapshots
  import opened CurveRates
  import opened HistoricalEngine
  import opened Builtin

  ghost predicate Symmetric(cdf: real -> real) {
    forall x :: cdf(-x) == 1.0 - cdf(x)
  }

  ghost predicate Multiplicative(exp: real -> real) {
    forall x, y :: exp(x + y) == exp(x) * exp(y)
  }

  // ----- arithmetic -----

  /** a n1 - b n2 against b (1 - n2) - a (1 - n1). */
  lemma Gap(a: real, b: real, n1: real, n2: real)
    ensures (a * n1 - b * n2) - (b * (1.0 - n2) - a * (1.0 - n1)) == a - b
  {
    assert b * (1.0 - n2) == b - b * n2;
    assert a * (1.0 - n1) == a - a * n1;
  }

  lemma Share(q: real, x: real, y: real, d: real)
    requires x - y == d
    ensures q * x - q * y == q * d
  {
    assert q * (x - y) == q * x - q * y;
  }

  lemma BlackGap(a: real, b: real, d1: real, d2: real, maths: Maths)
    requires Symmetric(maths.cdf)
    ensures BlackPrice(a, b, d1, d2, true, maths) - BlackPrice(a, b, d1, d2, false, maths) == a - b
  {
    assert maths.cdf(-d1) == 1.0 - maths.cdf(d1) && maths.cdf(-d2) == 1.0 - maths.cdf(d2);
    Gap(a, b, maths.cdf(d1), maths.cdf(d2));
  }

  // ----- options -----

  /** Both fail alike, or the prices and deltas differ by the given amounts and the rest agrees. */
  predicate GreeksApart(c: Result<Greeks, string>, p: Result<Greeks, string>, price: real, delta: real) {
    && (c.Err? ==> p == c) && (c.Ok? ==> p.Ok?)
    && (c.Ok? ==> c.value.price - p.value.price == price && c.value.delta - p.value.delta == delta)
    && (c.Ok? ==> c.value.gamma == p.value.gamma && c.value.vega == p.value.vega)
  }

  lemma GreeksGap(d: Result<real, string>, s: real, k: real, ds: real, dk: real, sigma: real, sqrtT: real, maths: Maths)
    requires Symmetric(maths.cdf)
    ensures GreeksApart(GreeksFrom(d, s, k, ds, dk, sigma, sqrtT, true, maths), GreeksFrom(d, s, k, ds, dk, sigma, sqrtT, false, maths),
                        s * ds - k * dk, ds)
  {
    if d.Ok? {
      BlackGap(s * ds, k * dk, d.value, d.value - sigma * sqrtT, maths);
      assert ds * (maths.cdf(d.value) - 1.0) == ds * maths.cdf(d.value) - ds;
    }
  }

  lemma SizedGap(q: real, x: real, y: real, s: real, d: real)
    requires x - y == d
    ensures q * x * s - q * y * s == q * d * s
  {
    Share(q, x, y, d);
    Share(s, q * x, q * y, q * d);
  }

  predicate EquityApart(c: Result<Valuation, string>, p: Result<Valuation, string>, value: real, delta: real) {
    && (c.Err? ==> p == c) && (c.Ok? ==> p.Ok?)
    && (c.Ok? ==> c.value.marketValue - p.value.marketValue == value && c.value.delta - p.value.delta == delta)
    && (c.Ok? ==> c.value.gamma == p.value.gamma && c.value.vega == p.value.vega)
  }

  function Sized(quantity: real, g: Result<Greeks, string>, s: real): Result<Valuation, string> {
    if g.Ok? then Ok(EquityOption(quantity, g.value, s)) else Err(g.error)
  }

  lemma EquityGap(quantity: real, c: Result<Greeks, string>, p: Result<Greeks, string>, s: real, price: real, delta: real)
    requires GreeksApart(c, p, price, delta)
    ensures EquityApart(Sized(quantity, c, s), Sized(quantity, p, s), quantity * price, quantity * delta * s)
  {
    if c.Ok? {
      Share(quantity, c.value.price, p.value.price, price);
      SizedGap(quantity, c.value.delta, p.value.delta, s, delta);
    }
  }

  /** Call less put is the discounted forward less the discounted strike; delta differs by the discounted spot, gamma and vega not at all. */
  lemma EuropeanParity(s: real, sigma: real, r: real, q: real, quantity: real, k: real, t: real, maths: Maths)
    requires Symmetric(maths.cdf)
    ensures var ds, dk := Discount(q, t, maths), Discount(r, t, maths);
      EquityApart(EuropeanOptionAt(s, sigma, r, q, quantity, k, t, true, maths), EuropeanOptionAt(s, sigma, r, q, quantity, k, t, false, maths),
                  quantity * (s * ds - k * dk), quantity * ds * s)
  {
    var ratio := Div(s, k);
    if ratio.Ok? {
      var d := D1(ratio.value, Drift(r - q, sigma, t), sigma, maths.sqrt(t), maths);
      EuropeanGap(d, s, sigma, k, Discount(q, t, maths), Discount(r, t, maths), maths.sqrt(t), quantity, maths);
    }
  }

  lemma EuropeanGap(d: Result<real, string>, s: real, sigma: real, k: real, ds: real, dk: real, sqrtT: real, quantity: real, maths: Maths)
    requires Symmetric(maths.cdf)
    ensures EquityApart(Sized(quantity, GreeksFrom(d, s, k, ds, dk, sigma, sqrtT, true, maths), s),
                        Sized(quantity, GreeksFrom(d, s, k, ds, dk, sigma, sqrtT, false, maths), s),
                        quantity * (s * ds - k * dk), quantity * ds * s)
  {
    GreeksGap(d, s, k, ds, dk, sigma, sqrtT, maths);
    EquityGap(quantity, GreeksFrom(d, s, k, ds, dk, sigma, sqrtT, true, maths), GreeksFrom(d, s, k, ds, dk, sigma, sqrtT, false, maths),
              s, s * ds - k * dk, ds);
  }

  // ----- FX options and forwards -----

  function ValueOf(r: Result<Valuation, string>): Option<real> {
    if r.Ok? then Some(r.value.marketValue) else None
  }

  /** On one market, both options are priced or neither, and their values differ by this. */
  predicate ValuesApart(c: Option<real>, p: Option<real>, gap: real) {
    c.Some? == p.Some? && (c.Some? ==> c.value - p.value == gap)
  }

  lemma FxGap(s: real, sigma: real, rd: real, rf: real, notional: real, k: real, t: real, maths: Maths)
    requires k > 0.0 && Symmetric(maths.cdf)
    ensures ValuesApart(ValueOf(FxOptionAt(s, sigma, rd, rf, notional, k, t, true, maths)),
                        ValueOf(FxOptionAt(s, sigma, rd, rf, notional, k, t, false, maths)),
                        notional * (s * Discount(rf, t, maths) - k * Discount(rd, t, maths)))
  {
    var d := D1(s / k, Drift(rd - rf, sigma, t), sigma, maths.sqrt(t), maths);
    FxUnits(d, s, sigma, k, Discount(rf, t, maths), Discount(rd, t, maths), maths.sqrt(t), notional, maths);
  }

  function Units(notional: real, g: Result<Greeks, string>): Option<real> {
    if g.Ok? then Some(notional * g.value.price) else None
  }

  lemma FxUnits(d: Result<real, string>, s: real, sigma: real, k: real, ds: real, dk: real, sqrtT: real, notional: real, maths: Maths)
    requires Symmetric(maths.cdf)
    ensures ValuesApart(Units(notional, GreeksFrom(d, s, k, ds, dk, sigma, sqrtT, true, maths)),
                        Units(notional, GreeksFrom(d, s, k, ds, dk, sigma, sqrtT, false, maths)), notional * (s * ds - k * dk))
  {
    GreeksGap(d, s, k, ds, dk, sigma, sqrtT, maths);
    UnitsGap(GreeksFrom(d, s, k, ds, dk, sigma, sqrtT, true, maths), GreeksFrom(d, s, k, ds, dk, sigma, sqrtT, false, maths), notional,
             s * ds - k * dk, ds);
  }

  lemma UnitsGap(c: Result<Greeks, string>, p: Result<Greeks, string>, notional: real, price: real, delta: real)
    requires GreeksApart(c, p, price, delta)
    ensures ValuesApart(Units(notional, c), Units(notional, p), notional * price)
  {
    if c.Ok? {
      Share(notional, c.value.price, p.value.price, price);
    }
  }

  lemma ForwardIs(s: real, rd: real, rf: real, notional: real, k: real, t: real, maths: Maths)
    requires Multiplicative(maths.exp)
    ensures FxForwardAt(s, rd, rf, notional, k, t, maths).marketValue == notional * (s * Discount(rf, t, maths) - k * Discount(rd, t, maths))
  {
    var e, f, g := maths.exp((rd - rf) * t), Discount(rd, t, maths), Discount(rf, t, maths);
    assert (rd - rf) * t + -rd * t == -rf * t;
    assert g == e * f;
    DiscountForward(s, e, f, g, k, notional);
  }

  lemma DiscountForward(s: real, e: real, f: real, g: real, k: real, notional: real)
    requires g == e * f
    ensures notional * (s * e - k) * f == notional * (s * g - k * f)
  {
    var x := s * e - k;
    assert (s * e) * f == s * g;
    assert x * f == (s * e) * f - k * f;
    assert notional * x * f == notional * (x * f);
  }

  lemma FxResolved(m: Marks, pair: string, notional: real, k: real, t: real, call: bool, maths: Maths) returns (s: real, sigma: real, rd: real, rf: real)
    requires |pair| == 6 && k > 0.0 && FxOptionValue(m, pair, notional, k, t, call, maths).Ok?
    ensures forall c :: FxOptionValue(m, pair, notional, k, t, c, maths) == FxOptionAt(s, sigma, rd, rf, notional, k, t, c, maths)
    ensures FxForwardValue(m, pair, notional, k, t, maths) == Ok(FxForwardAt(s, rd, rf, notional, k, t, maths))
  {
    s, rd, rf := m.fxSpots[pair], m.rates[Quote(pair)], m.rates[Base(pair)];
    sigma := OptionVol(m.volSurfaces, m.fxVols, pair, t, k, s).value;
  }

  /** Long a call and short a put on a pair is the forward with their strike, on every market that prices the call. */
  lemma FxParity(m: Marks, pair: string, notional: real, k: real, t: real, maths: Maths)
    requires |pair| == 6 && k > 0.0 && Symmetric(maths.cdf) && Multiplicative(maths.exp)
    requires FxOptionValue(m, pair, notional, k, t, true, maths).Ok?
    ensures var c, p := FxOptionValue(m, pair, notional, k, t, true, maths), FxOptionValue(m, pair, notional, k, t, false, maths);
      var f := FxForwardValue(m, pair, notional, k, t, maths);
      p.Ok? && f.Ok? && c.value.marketValue - p.value.marketValue == f.value.marketValue
  {
    var s, sigma, rd, rf := FxResolved(m, pair, notional, k, t, true, maths);
    FxGap(s, sigma, rd, rf, notional, k, t, maths);
    ForwardIs(s, rd, rf, notional, k, t, maths);
  }

  // ----- caps, floors and swaptions -----

  predicate OptionletsApart(c: Result<(real, real), string>, p: Result<(real, real), string>, gap: real) {
    && (c.Err? ==> p == c) && (c.Ok? ==> p.Ok?)
    && (c.Ok? ==> c.value.0 - p.value.0 == gap && c.value.1 == p.value.1)
  }

  lemma OptionletGap(forward: real, k: real, sigma: real, expiry: real, maths: Maths)
    requires k > 0.0 && Symmetric(maths.cdf)
    ensures OptionletsApart(Optionlet(forward, k, sigma, expiry, true, maths), Optionlet(forward, k, sigma, expiry, false, maths), forward - k)
  {
    BlackOptionlets(D1(forward / k, 0.5 * sigma * sigma * expiry, sigma, maths.sqrt(expiry), maths), forward, k, sigma, maths.sqrt(expiry), maths);
  }

  lemma BlackOptionlets(d: Result<real, string>, forward: real, k: real, sigma: real, sqrtT: real, maths: Maths)
    requires Symmetric(maths.cdf)
    ensures OptionletsApart(OptionletFrom(d, forward, k, sigma, sqrtT, true, maths), OptionletFrom(d, forward, k, sigma, sqrtT, false, maths), forward - k)
  {
    if d.Ok? {
      BlackGap(forward, k, d.value, d.value - sigma * sqrtT, maths);
    }
  }

  predicate Apart(c: Result<Unit, string>, p: Result<Unit, string>, gap: real) {
    && (c.Err? ==> p == c) && (c.Ok? ==> p.Ok?)
    && (c.Ok? ==> c.value.pv - p.value.pv == gap && c.value.vega == p.value.vega)
  }

  lemma WeightedGap(weight: real, forward: real, c: Result<(real, real), string>, p: Result<(real, real), string>, gap: real, message: string)
    requires OptionletsApart(c, p, gap)
    ensures Apart(Weighted(weight, forward, c, message), Weighted(weight, forward, p, message), weight * gap)
  {
    if c.Ok? {
      Share(weight, c.value.0, p.value.0, gap);
    }
  }

  lemma PaidGap(weight: real, forward: real, k: real, sigma: real, expiry: real, message: string, maths: Maths)
    requires k > 0.0 && Symmetric(maths.cdf)
    ensures Apart(Weighted(weight, forward, Optionlet(forward, k, sigma, expiry, true, maths), message),
                  Weighted(weight, forward, Optionlet(forward, k, sigma, expiry, false, maths), message), weight * (forward - k))
  {
    OptionletGap(forward, k, sigma, expiry, maths);
    WeightedGap(weight, forward, Optionlet(forward, k, sigma, expiry, true, maths), Optionlet(forward, k, sigma, expiry, false, maths),
                forward - k, message);
  }

  /** One period of the forward leg: the forward less the strike, accrued and discounted. */
  function LegAt(weight: real, f: real, s: Strip): real {
    weight * (f + s.shift - s.strike)
  }

  lemma CapletGap(weight: real, f: real, s: Strip, i: nat, maths: Maths)
    requires s.strike > 0.0 && Symmetric(maths.cdf)
    ensures Apart(CapletAt(weight, f, s, i, true, maths), CapletAt(weight, f, s, i, false, maths), LegAt(weight, f, s))
  {
    PaidGap(weight, f + s.shift, s.strike, s.sigma, ExpiryTime(s, i), "Black cap/floor pricing requires a positive forward rate", maths);
  }

  /** The leg's period where both zeros resolve. */
  ghost function Leg(m: Marks, s: Strip, i: nat, maths: Maths): real {
    var f, d := RequiredZero(m, s.currency, ExpiryTime(s, i), true), RequiredZero(m, s.currency, PaymentTime(s, i), false);
    if f.Ok? && d.Ok? then LegAt(CapletWeight(d.value, s, i, maths), f.value, s) else 0.0
  }

  ghost function Legs(m: Marks, s: Strip, n: nat, maths: Maths): real {
    if n == 0 then 0.0 else Legs(m, s, n - 1, maths) + Leg(m, s, n, maths)
  }

  lemma CapletsApart(m: Marks, s: Strip, i: nat, maths: Maths)
    requires s.strike > 0.0 && Symmetric(maths.cdf)
    ensures Apart(Caplet(m, s, i, true, maths), Caplet(m, s, i, false, maths), Leg(m, s, i, maths))
  {
    var f, d := RequiredZero(m, s.currency, ExpiryTime(s, i), true), RequiredZero(m, s.currency, PaymentTime(s, i), false);
    if f.Ok? && d.Ok? {
      CapletGap(CapletWeight(d.value, s, i, maths), f.value, s, i, maths);
    }
  }

  lemma AtPeriod(m: Marks, s: Strip, i: nat, maths: Maths)
    requires s.strike > 0.0 && Symmetric(maths.cdf) && i < s.periods
    ensures Apart(Caplets(m, s, true, maths)[i], Caplets(m, s, false, maths)[i], Leg(m, s, i + 1, maths))
  {
    CapletsApart(m, s, i + 1, maths);
  }

  lemma SumsApart(a: Result<Unit, string>, b: Result<Unit, string>, x: Result<Unit, string>, y: Result<Unit, string>, g: real, h: real)
    requires Apart(a, b, g) && Apart(x, y, h)
    ensures Apart(Added(a, x), Added(b, y), g + h)
  {
  }

  function Added(before: Result<Unit, string>, last: Result<Unit, string>): Result<Unit, string> {
    if before.Err? then before else if last.Err? then last else Ok(Plus(before.value, last.value))
  }

  lemma {:induction false} PrefixApart(a: seq<Result<Unit, string>>, b: seq<Result<Unit, string>>, m: Marks, s: Strip, maths: Maths)
    requires |a| == |b| && forall i :: 0 <= i < |a| ==> Apart(a[i], b[i], Leg(m, s, i + 1, maths))
    ensures Apart(SumUnits(a), SumUnits(b), Legs(m, s, |a|, maths))
    decreases |a|
  {
    if a != [] {
      var n := |a| - 1;
      PrefixApart(a[..n], b[..n], m, s, maths);
      SumsApart(SumUnits(a[..n]), SumUnits(b[..n]), a[n], b[n], Legs(m, s, n, maths), Leg(m, s, n + 1, maths));
      assert SumUnits(a) == Added(SumUnits(a[..n]), a[n]) && SumUnits(b) == Added(SumUnits(b[..n]), b[n]);
    }
  }

  /** Long a cap and short a floor of one strike is the strip of forward payments; their vegas agree, and they fail together. */
  lemma CapFloorParity(m: Marks, s: Strip, maths: Maths)
    requires s.strike > 0.0 && Symmetric(maths.cdf)
    ensures Apart(SumUnits(Caplets(m, s, true, maths)), SumUnits(Caplets(m, s, false, maths)), Legs(m, s, s.periods, maths))
  {
    forall i | 0 <= i < s.periods
      ensures Apart(Caplets(m, s, true, maths)[i], Caplets(m, s, false, maths)[i], Leg(m, s, i + 1, maths))
    {
      AtPeriod(m, s, i, maths);
    }
    PrefixApart(Caplets(m, s, true, maths), Caplets(m, s, false, maths), m, s, maths);
  }

  // ----- as the pricer reports them -----

  /** Both fail alike, or value and DV01 differ by the given amounts and the vegas agree. */
  predicate RatesApart(c: Result<Valuation, string>, p: Result<Valuation, string>, value: real, dv01: real) {
    && (c.Err? ==> p == c) && (c.Ok? ==> p.Ok?)
    && (c.Ok? ==> c.value.marketValue - p.value.marketValue == value && c.value.dv01 - p.value.dv01 == dv01)
    && (c.Ok? ==> c.value.vega == p.value.vega)
  }

  lemma ReportedApart(scale: real, c: Result<Unit, string>, p: Result<Unit, string>, c': Result<Unit, string>, p': Result<Unit, string>, g: real, h: real)
    requires Apart(c, p, g) && Apart(c', p', h)
    ensures RatesApart(Reported(scale, c, c'), Reported(scale, p, p'), scale * g, scale * h - scale * g)
  {
    if c.Ok? && c'.Ok? {
      Share(scale, c.value.pv, p.value.pv, g);
      Share(scale, c'.value.pv, p'.value.pv, h);
    }
  }

  /** The strip a cap and its floor share, where the vol resolves. */
  ghost function Strips(m: Marks, currency: string, k: real, t: real, frequency: nat, forward: real, shift: real, maths: Maths): real {
    var vol := OptionVol(m.volSurfaces, m.irVols, currency, t, k, forward);
    if vol.Ok? then
      var s := StripOf(currency, k, t, frequency, vol.value, shift);
      Legs(m, s, s.periods, maths)
    else 0.0
  }

  lemma CapUnitsApart(m: Marks, currency: string, k: real, t: real, frequency: nat, forward: real, shift: real, maths: Maths)
    requires k > 0.0 && Symmetric(maths.cdf)
    ensures Apart(CapFloorUnits(m, currency, k, t, frequency, true, forward, shift, maths),
                  CapFloorUnits(m, currency, k, t, frequency, false, forward, shift, maths),
                  Strips(m, currency, k, t, frequency, forward, shift, maths))
  {
    var vol := OptionVol(m.volSurfaces, m.irVols, currency, t, k, forward);
    if vol.Ok? {
      CapFloorParity(m, StripOf(currency, k, t, frequency, vol.value, shift), maths);
    }
  }

  lemma CapReported(m: Marks, currency: string, scale: real, k: real, t: real, cap: bool, frequency: nat, forward: real, maths: Maths)
    returns (unit: Result<Unit, string>, bumped: Result<Unit, string>)
    requires k > 0.0
    ensures unit == CapFloorUnits(m, currency, k, t, frequency, cap, forward, 0.0, maths)
    ensures bumped == CapFloorUnits(m, currency, k, t, frequency, cap, forward, ONE_BP, maths)
    ensures CapFloorValue(m, currency, scale, k, t, cap, frequency, forward, maths) == Reported(scale, unit, bumped)
  {
    unit := CapFloorUnits(m, currency, k, t, frequency, cap, forward, 0.0, maths);
    bumped := CapFloorUnits(m, currency, k, t, frequency, cap, forward, ONE_BP, maths);
  }

  lemma CapGaps(m: Marks, currency: string, scale: real, k: real, t: real, frequency: nat, forward: real, maths: Maths)
    returns (c: Result<Unit, string>, c': Result<Unit, string>, p: Result<Unit, string>, p': Result<Unit, string>, g: real, h: real)
    requires k > 0.0 && Symmetric(maths.cdf)
    ensures g == Strips(m, currency, k, t, frequency, forward, 0.0, maths)
    ensures h == Strips(m, currency, k, t, frequency, forward, ONE_BP, maths)
    ensures Apart(c, p, g) && Apart(c', p', h)
    ensures CapFloorValue(m, currency, scale, k, t, true, frequency, forward, maths) == Reported(scale, c, c')
    ensures CapFloorValue(m, currency, scale, k, t, false, frequency, forward, maths) == Reported(scale, p, p')
  {
    c, c' := CapReported(m, currency, scale, k, t, true, frequency, forward, maths);
    p, p' := CapReported(m, currency, scale, k, t, false, frequency, forward, maths);
    g := Strips(m, currency, k, t, frequency, forward, 0.0, maths);
    h := Strips(m, currency, k, t, frequency, forward, ONE_BP, maths);
    CapUnitsApart(m, currency, k, t, frequency, forward, 0.0, maths);
    CapUnitsApart(m, currency, k, t, frequency, forward, ONE_BP, maths);
  }

  /** On any market, a cap less the floor of its strike is reported as the scaled forward strip, and its DV01 as the strip's own. */
  lemma CapFloorValueParity(m: Marks, currency: string, scale: real, k: real, t: real, frequency: nat, forward: real, maths: Maths)
    returns (g: real, h: real)
    requires k > 0.0 && Symmetric(maths.cdf)
    ensures g == Strips(m, currency, k, t, frequency, forward, 0.0, maths)
    ensures h == Strips(m, currency, k, t, frequency, forward, ONE_BP, maths)
    ensures RatesApart(CapFloorValue(m, currency, scale, k, t, true, frequency, forward, maths),
                       CapFloorValue(m, currency, scale, k, t, false, frequency, forward, maths), scale * g, scale * h - scale * g)
  {
    var c, c', p, p';
    c, c', p, p', g, h := CapGaps(m, currency, scale, k, t, frequency, forward, maths);
    ReportedApart(scale, c, p, c', p', g, h);
  }

  lemma PayerGap(annuity: real, forward: real, k: real, vol: real, t: real, maths: Maths)
    requires k > 0.0 && Symmetric(maths.cdf)
    ensures Apart(SwaptionOf(annuity, forward, k, vol, t, true, maths), SwaptionOf(annuity, forward, k, vol, t, false, maths), annuity * (forward - k))
  {
    PaidGap(annuity, forward, k, Max(0.00000001, vol), t, "Black swaption pricing requires a positive forward swap rate", maths);
  }

  function ForwardSwap(annuity: real, forward: real, k: real): real {
    annuity * (forward - k)
  }

  /** The forward swap a payer and its receiver share, where both zeros resolve. */
  function ForwardSwapFrom(forward: Result<real, string>, leg: Result<real, string>, k: real): real {
    if forward.Ok? && leg.Ok? then ForwardSwap(leg.value, forward.value, k) else 0.0
  }

  ghost function ForwardSwapAt(m: Marks, currency: string, k: real, t: real, tenor: real, frequency: nat, shift: real, maths: Maths): real {
    ForwardSwapFrom(Raised(RequiredZero(m, currency, t, true), shift),
                    LegOf(Raised(RequiredZero(m, currency, t + tenor, false), shift), tenor, frequency, t, maths), k)
  }

  lemma FromApart(vol: Result<real, string>, f: Result<real, string>, leg: Result<real, string>, k: real, t: real, maths: Maths)
    requires k > 0.0 && Symmetric(maths.cdf)
    ensures Apart(SwaptionFrom(vol, f, leg, k, t, true, maths), SwaptionFrom(vol, f, leg, k, t, false, maths), ForwardSwapFrom(f, leg, k))
  {
    if vol.Ok? && f.Ok? && leg.Ok? {
      PayerGap(leg.value, f.value, k, vol.value, t, maths);
    }
  }

  lemma SwaptionUnitsApart(m: Marks, currency: string, k: real, t: real, tenor: real, frequency: nat, forward: real, shift: real, maths: Maths)
    requires k > 0.0 && Symmetric(maths.cdf)
    ensures Apart(SwaptionUnits(m, currency, k, t, tenor, frequency, true, forward, shift, maths),
                  SwaptionUnits(m, currency, k, t, tenor, frequency, false, forward, shift, maths),
                  ForwardSwapAt(m, currency, k, t, tenor, frequency, shift, maths))
  {
    FromApart(OptionVol(m.volSurfaces, m.irVols, currency, t, k, forward), Raised(RequiredZero(m, currency, t, true), shift),
              LegOf(Raised(RequiredZero(m, currency, t + tenor, false), shift), tenor, frequency, t, maths), k, t, maths);
  }

  lemma SwaptionReported(m: Marks, currency: string, scale: real, k: real, t: real, tenor: real, payer: bool, frequency: nat, forward: real, maths: Maths)
    returns (unit: Result<Unit, string>, bumped: Result<Unit, string>)
    requires k > 0.0
    ensures unit == SwaptionUnits(m, currency, k, t, tenor, frequency, payer, forward, 0.0, maths)
    ensures bumped == SwaptionUnits(m, currency, k, t, tenor, frequency, payer, forward, ONE_BP, maths)
    ensures SwaptionValue(m, currency, scale, k, t, tenor, payer, frequency, forward, maths) == Reported(scale, unit, bumped)
  {
    unit := SwaptionUnits(m, currency, k, t, tenor, frequency, payer, forward, 0.0, maths);
    bumped := SwaptionUnits(m, currency, k, t, tenor, frequency, payer, forward, ONE_BP, maths);
  }

  lemma SwaptionGaps(m: Marks, currency: string, scale: real, k: real, t: real, tenor: real, frequency: nat, forward: real, maths: Maths)
    returns (c: Result<Unit, string>, c': Result<Unit, string>, p: Result<Unit, string>, p': Result<Unit, string>, g: real, h: real)
    requires k > 0.0 && Symmetric(maths.cdf)
    ensures g == ForwardSwapAt(m, currency, k, t, tenor, frequency, 0.0, maths)
    ensures h == ForwardSwapAt(m, currency, k, t, tenor, frequency, ONE_BP, maths)
    ensures Apart(c, p, g) && Apart(c', p', h)
    ensures SwaptionValue(m, currency, scale, k, t, tenor, true, frequency, forward, maths) == Reported(scale, c, c')
    ensures SwaptionValue(m, currency, scale, k, t, tenor, false, frequency, forward, maths) == Reported(scale, p, p')
  {
    c, c' := SwaptionReported(m, currency, scale, k, t, tenor, true, frequency, forward, maths);
    p, p' := SwaptionReported(m, currency, scale, k, t, tenor, false, frequency, forward, maths);
    g := ForwardSwapAt(m, currency, k, t, tenor, frequency, 0.0, maths);
    h := ForwardSwapAt(m, currency, k, t, tenor, frequency, ONE_BP, maths);
    SwaptionUnitsApart(m, currency, k, t, tenor, frequency, forward, 0.0, maths);
    SwaptionUnitsApart(m, currency, k, t, tenor, frequency, forward, ONE_BP, maths);
  }

  /** On any market, a payer less the receiver of its strike is reported as the scaled forward swap: annuity times forward less strike. */
  lemma SwaptionParity(m: Marks, currency: string, scale: real, k: real, t: real, tenor: real, frequency: nat, forward: real, maths: Maths)
    returns (g: real, h: real)
    requires k > 0.0 && Symmetric(maths.cdf)
    ensures g == ForwardSwapAt(m, currency, k, t, tenor, frequency, 0.0, maths)
    ensures h == ForwardSwapAt(m, currency, k, t, tenor, frequency, ONE_BP, maths)
    ensures RatesApart(SwaptionValue(m, currency, scale, k, t, tenor, true, frequency, forward, maths),
                       SwaptionValue(m, currency, scale, k, t, tenor, false, frequency, forward, maths), scale * g, scale * h - scale * g)
  {
    var c, c', p, p';
    c, c', p, p', g, h := SwaptionGaps(m, currency, scale, k, t, tenor, frequency, forward, maths);
    ReportedApart(scale, c, p, c', p', g, h);
  }
}
