/**
 * Options struck at the forward, gamma against vega, and a currency option seen from its other currency (pricing/builtin.py).
 * exp, ln and sqrt are taken to be the functions of those names, and the cdf to be symmetric.
 */
module AtForward {
  import opened Wrappers
  import opened RealMath
  import opened Vectors
  import opened HistoricalEngine
  import opened Builtin
  import opened Parity
  import opened BlackBounds

  // ----- exp and ln -----

  lemma ElementaryParts(maths: Maths)
    requires Elementary(maths)
    ensures Positive(maths.exp) && Multiplicative(maths.exp) && Logarithm(maths.ln, maths.exp) && Root(maths.sqrt)
  {
  }

  lemma ExpZero(maths: Maths)
    requires Positive(maths.exp) && Multiplicative(maths.exp)
    ensures maths.exp(0.0) == 1.0
  {
    var e := maths.exp(0.0);
    assert maths.exp(0.0 + 0.0) == e * e;
    MulCancelEq(e, 1.0, e);
  }

  lemma ExpSum(x: real, y: real, z: real, maths: Maths)
    requires Multiplicative(maths.exp) && z == x + y
    ensures maths.exp(z) == maths.exp(x) * maths.exp(y)
  {
  }

  lemma ExpPositive(x: real, maths: Maths)
    requires Positive(maths.exp)
    ensures maths.exp(x) > 0.0
  {
  }

  lemma LnExp(x: real, y: real, maths: Maths)
    requires Logarithm(maths.ln, maths.exp) && y == maths.exp(x)
    ensures maths.ln(y) == x
  {
  }

  lemma LnOne(maths: Maths)
    requires Elementary(maths)
    ensures maths.ln(1.0) == 0.0
  {
    ExpZero(maths);
  }

  /** s ds == k dk with dk == ds e makes s / k == e. */
  lemma RatioIs(s: real, k: real, ds: real, dk: real, e: real)
    requires k > 0.0 && ds > 0.0 && s * ds == k * dk && dk == ds * e
    ensures s / k == e
  {
    assert s * ds == e * k * ds by {
      assert k * dk == e * k * ds;
    }
    MulCancelEq(s, e * k, ds);
    QuotientIs(s, k, e);
  }

  lemma DiscountIs(rate: real, t: real, maths: Maths)
    ensures Discount(rate, t, maths) == maths.exp(-rate * t)
  {
  }

  lemma CarryTime(q: real, r: real, t: real)
    ensures -r * t == -q * t + (q - r) * t
  {
  }

  lemma DiscountCarry(q: real, r: real, t: real, maths: Maths)
    requires Multiplicative(maths.exp)
    ensures Discount(r, t, maths) == Discount(q, t, maths) * maths.exp((q - r) * t)
  {
    hide *;
    DiscountIs(q, t, maths);
    DiscountIs(r, t, maths);
    CarryTime(q, r, t);
    ExpSum(-q * t, (q - r) * t, -r * t, maths);
  }

  /** At the forward, the log of spot over strike is the carry paid. */
  lemma LogAtForward(s: real, k: real, q: real, r: real, t: real, maths: Maths)
    requires Elementary(maths) && k > 0.0 && s * Discount(q, t, maths) == k * Discount(r, t, maths)
    ensures maths.ln(s / k) == (q - r) * t
  {
    hide *;
    ElementaryParts(maths);
    DiscountCarry(q, r, t, maths);
    ExpPositive(-q * t, maths);
    DiscountIs(q, t, maths);
    RatioIs(s, k, Discount(q, t, maths), Discount(r, t, maths), maths.exp((q - r) * t));
    LnExp((q - r) * t, s / k, maths);
  }

  // ----- d1 at the forward -----

  lemma HalfSquare(sigma: real, sqrtT: real, t: real)
    requires sqrtT * sqrtT == t
    ensures 0.5 * (sigma * sqrtT) * (sigma * sqrtT) == 0.5 * sigma * sigma * t
  {
    SquareOfProduct(sigma, sqrtT);
    MulAssoc(0.5, sigma * sqrtT, sigma * sqrtT);
    MulAssoc(0.5 * sigma, sigma, t);
  }

  lemma DriftAtForward(q: real, r: real, sigma: real, t: real)
    ensures (q - r) * t + Drift(r - q, sigma, t) == 0.5 * sigma * sigma * t
  {
    assert (r - q + 0.5 * sigma * sigma) * t == (r - q) * t + 0.5 * sigma * sigma * t;
  }

  /** With nothing but the variance in it, d1 is half the total volatility. */
  lemma HalfD1(ratio: real, drift: real, sigma: real, sqrtT: real, t: real, maths: Maths)
    requires sqrtT * sqrtT == t && D1(ratio, drift, sigma, sqrtT, maths).Ok?
    requires maths.ln(ratio) + drift == 0.5 * sigma * sigma * t
    ensures D1(ratio, drift, sigma, sqrtT, maths) == Ok(0.5 * (sigma * sqrtT))
  {
    HalfSquare(sigma, sqrtT, t);
    QuotientIs(maths.ln(ratio) + drift, sigma * sqrtT, 0.5 * (sigma * sqrtT));
  }

  // ----- value and vega at the forward -----

  /** A price that is a share of the leg a: how much likelier it is to end within h above than below. */
  function Central(a: real, h: real, maths: Maths): real {
    a * (2.0 * maths.cdf(h) - 1.0)
  }

  lemma CentralPrice(a: real, h: real, call: bool, maths: Maths)
    requires Symmetric(maths.cdf)
    ensures BlackPrice(a, a, h, -h, call, maths) == Central(a, h, maths)
  {
    var n := maths.cdf(h);
    assert maths.cdf(-h) == 1.0 - n && maths.cdf(-(-h)) == n;
    assert a * n - a * (1.0 - n) == a * (2.0 * n - 1.0);
  }

  /** The value and the vega per point of a number of units struck at the forward, a each, over half the total volatility. */
  predicate Centred(value: real, vega: real, units: real, a: real, sigma: real, sqrtT: real, maths: Maths) {
    && value == units * Central(a, 0.5 * (sigma * sqrtT), maths)
    && vega == units * (a * maths.pdf(0.5 * (sigma * sqrtT)) * sqrtT) * 0.01
  }

  lemma GreeksCentred(s: real, k: real, ds: real, dk: real, sigma: real, sqrtT: real, call: bool, g: Greeks, a: real, h: real, maths: Maths)
    requires Symmetric(maths.cdf) && a == s * ds == k * dk && h == 0.5 * (sigma * sqrtT)
    requires GreeksFrom(Ok(h), s, k, ds, dk, sigma, sqrtT, call, maths) == Ok(g)
    ensures g.price == Central(a, h, maths) && g.vega == a * maths.pdf(h) * sqrtT
  {
    assert h - sigma * sqrtT == -h;
    CentralPrice(a, h, call, maths);
  }

  lemma RootAt(t: real, maths: Maths)
    requires Root(maths.sqrt) && t >= 0.0
    ensures maths.sqrt(t) * maths.sqrt(t) == t && maths.sqrt(t) >= 0.0
  {
  }

  /** An equity option struck at the forward, call or put, is worth the spot leg times twice the chance of a half-volatility move, less one. */
  lemma OptionAtForward(s: real, sigma: real, r: real, q: real, quantity: real, k: real, t: real, call: bool, a: real, maths: Maths)
    requires Elementary(maths) && Symmetric(maths.cdf) && t >= 0.0 && k > 0.0
    requires a == s * Discount(q, t, maths) == k * Discount(r, t, maths)
    requires EuropeanOptionAt(s, sigma, r, q, quantity, k, t, call, maths).Ok?
    ensures var v := EuropeanOptionAt(s, sigma, r, q, quantity, k, t, call, maths).value;
      Centred(v.marketValue, v.vega, quantity, a, sigma, maths.sqrt(t), maths)
  {
    hide *;
    ElementaryParts(maths);
    var d1, d2, g := EquityUnit(s, sigma, r, q, quantity, k, t, call, maths);
    LogAtForward(s, k, q, r, t, maths);
    DriftAtForward(q, r, sigma, t);
    RootAt(t, maths);
    HalfD1(s / k, Drift(r - q, sigma, t), sigma, maths.sqrt(t), t, maths);
    GreeksCentred(s, k, Discount(q, t, maths), Discount(r, t, maths), sigma, maths.sqrt(t), call, g, a, d1, maths);
    CentredFrom(quantity, g, quantity * g.price, quantity * g.vega * 0.01, a, d1, sigma, maths.sqrt(t), maths);
  }

  lemma CentredFrom(units: real, g: Greeks, value: real, vega: real, a: real, h: real, sigma: real, sqrtT: real, maths: Maths)
    requires h == 0.5 * (sigma * sqrtT) && value == units * g.price && vega == units * g.vega * 0.01
    requires g.price == Central(a, h, maths) && g.vega == a * maths.pdf(h) * sqrtT
    ensures Centred(value, vega, units, a, sigma, sqrtT, maths)
  {
  }

  /** The same of a currency option. */
  lemma FxOptionAtForward(s: real, sigma: real, rd: real, rf: real, notional: real, k: real, t: real, call: bool, a: real, maths: Maths)
    requires Elementary(maths) && Symmetric(maths.cdf) && t >= 0.0 && k > 0.0
    requires a == s * Discount(rf, t, maths) == k * Discount(rd, t, maths)
    requires FxOptionAt(s, sigma, rd, rf, notional, k, t, call, maths).Ok?
    ensures var v := FxOptionAt(s, sigma, rd, rf, notional, k, t, call, maths).value;
      Centred(v.marketValue, v.vega, notional, a, sigma, maths.sqrt(t), maths)
  {
    hide *;
    ElementaryParts(maths);
    var d1, d2, g := FxUnit(s, sigma, rd, rf, notional, k, t, call, maths);
    LogAtForward(s, k, rf, rd, t, maths);
    DriftAtForward(rf, rd, sigma, t);
    RootAt(t, maths);
    HalfD1(s / k, Drift(rd - rf, sigma, t), sigma, maths.sqrt(t), t, maths);
    GreeksCentred(s, k, Discount(rf, t, maths), Discount(rd, t, maths), sigma, maths.sqrt(t), call, g, a, d1, maths);
    CentredFrom(notional, g, notional * g.price, notional * g.vega * 0.01, a, d1, sigma, maths.sqrt(t), maths);
  }

  // ----- vega is the slope -----

  /** Raising the vol by some points gains at most the vega before times the points, and at least the vega after. */
  predicate SlopesDown(gain: real, before: real, after: real, points: real) {
    after * points <= gain <= before * points
  }

  lemma DensityBetween(x: real, y: real, maths: Maths)
    requires Density(maths.cdf, maths.pdf) && 0.0 <= x <= y
    ensures SlopesDown(maths.cdf(y) - maths.cdf(x), maths.pdf(x), maths.pdf(y), y - x)
  {
  }

  lemma HalfVols(sigma: real, sigma': real, sqrtT: real)
    requires 0.0 <= sigma <= sigma' && sqrtT >= 0.0
    ensures 0.0 <= 0.5 * (sigma * sqrtT) <= 0.5 * (sigma' * sqrtT)
    ensures 2.0 * (0.5 * (sigma' * sqrtT) - 0.5 * (sigma * sqrtT)) == (sigma' - sigma) * sqrtT
  {
    MulMonotone(sigma, sigma', sqrtT);
    ProductNonNegative(sigma, sqrtT, sigma * sqrtT);
  }

  lemma ScaledSlope(w: real, gain: real, before: real, after: real, points: real)
    requires w >= 0.0 && SlopesDown(gain, before, after, points)
    ensures SlopesDown(w * gain, w * before, w * after, points)
  {
    MulMonotone(after * points, gain, w);
    MulMonotone(gain, before * points, w);
    MulAssoc(w, after, points);
    MulAssoc(w, before, points);
  }

  /** The same slope with the points counted in another unit. */
  lemma SlopeUnits(gain: real, before: real, after: real, step: real, c: real, b: real, a: real, points: real)
    requires SlopesDown(gain, before, after, step) && b == before * c && a == after * c && step == c * points
    ensures SlopesDown(gain, b, a, points)
  {
    MulAssoc(before, c, points);
    MulAssoc(after, c, points);
  }

  lemma CentralGain(units: real, a: real, n: real, n': real)
    ensures units * (a * (2.0 * n' - 1.0)) - units * (a * (2.0 * n - 1.0)) == 2.0 * (units * a) * (n' - n)
  {
    assert a * (2.0 * n' - 1.0) - a * (2.0 * n - 1.0) == 2.0 * a * (n' - n);
    Share(units, a * (2.0 * n' - 1.0), a * (2.0 * n - 1.0), 2.0 * a * (n' - n));
    assert units * (2.0 * a * (n' - n)) == 2.0 * (units * a) * (n' - n);
  }

  lemma VegaUnits(units: real, a: real, p: real, sqrtT: real, vega: real)
    requires vega == units * (a * p * sqrtT) * 0.01
    ensures vega == 2.0 * (units * a) * p * (0.005 * sqrtT)
  {
    assert units * (a * p * sqrtT) == units * a * p * sqrtT;
  }

  /** From the centred form at two vols: the vega reported is the slope of the value, per point of vol. */
  lemma CentredSlope(units: real, a: real, sigma: real, sigma': real, sqrtT: real, value: real, vega: real, value': real, vega': real, maths: Maths)
    requires Density(maths.cdf, maths.pdf) && 0.0 <= sigma <= sigma' && sqrtT >= 0.0 && units >= 0.0 && a >= 0.0
    requires Centred(value, vega, units, a, sigma, sqrtT, maths) && Centred(value', vega', units, a, sigma', sqrtT, maths)
    ensures SlopesDown(value' - value, vega, vega', (sigma' - sigma) * 100.0)
  {
    var h, h' := 0.5 * (sigma * sqrtT), 0.5 * (sigma' * sqrtT);
    HalfVols(sigma, sigma', sqrtT);
    DensityBetween(h, h', maths);
    SlopeFrom(units, a, sqrtT, maths.cdf(h), maths.cdf(h'), maths.pdf(h), maths.pdf(h'), h' - h, (sigma' - sigma) * 100.0, value, vega, value', vega');
  }

  lemma SlopeFrom(units: real, a: real, sqrtT: real, n: real, n': real, p: real, p': real, step: real, points: real,
                  value: real, vega: real, value': real, vega': real)
    requires units >= 0.0 && a >= 0.0 && SlopesDown(n' - n, p, p', step) && step == 0.005 * sqrtT * points
    requires value == units * (a * (2.0 * n - 1.0)) && vega == units * (a * p * sqrtT) * 0.01
    requires value' == units * (a * (2.0 * n' - 1.0)) && vega' == units * (a * p' * sqrtT) * 0.01
    ensures SlopesDown(value' - value, vega, vega', points)
  {
    hide *;
    var w := 2.0 * (units * a);
    ProductNonNegative(units, a, units * a);
    CentralGain(units, a, n, n');
    ScaledSlope(w, n' - n, p, p', step);
    VegaUnits(units, a, p, sqrtT, vega);
    VegaUnits(units, a, p', sqrtT, vega');
    SlopeUnits(value' - value, w * p, w * p', step, 0.005 * sqrtT, vega, vega', points);
  }

  /** Vega is what one point of vol is worth: an option struck at the forward gains at most vega per point raised, and at least the vega it then has. */
  lemma VegaIsSlope(s: real, sigma: real, sigma': real, r: real, q: real, quantity: real, k: real, t: real, call: bool, a: real, maths: Maths)
    requires Elementary(maths) && Symmetric(maths.cdf) && Density(maths.cdf, maths.pdf)
    requires s > 0.0 && k > 0.0 && t >= 0.0 && 0.0 <= sigma <= sigma' && quantity >= 0.0
    requires a == s * Discount(q, t, maths) == k * Discount(r, t, maths)
    requires EuropeanOptionAt(s, sigma, r, q, quantity, k, t, call, maths).Ok? && EuropeanOptionAt(s, sigma', r, q, quantity, k, t, call, maths).Ok?
    ensures var v, v' := EuropeanOptionAt(s, sigma, r, q, quantity, k, t, call, maths).value,
                         EuropeanOptionAt(s, sigma', r, q, quantity, k, t, call, maths).value;
      SlopesDown(v'.marketValue - v.marketValue, v.vega, v'.vega, (sigma' - sigma) * 100.0)
  {
    hide *;
    ElementaryParts(maths);
    RootAt(t, maths);
    LegPositive(s, q, t, a, maths);
    OptionAtForward(s, sigma, r, q, quantity, k, t, call, a, maths);
    OptionAtForward(s, sigma', r, q, quantity, k, t, call, a, maths);
    var v, v' := EuropeanOptionAt(s, sigma, r, q, quantity, k, t, call, maths).value,
                 EuropeanOptionAt(s, sigma', r, q, quantity, k, t, call, maths).value;
    CentredSlope(quantity, a, sigma, sigma', maths.sqrt(t), v.marketValue, v.vega, v'.marketValue, v'.vega, maths);
  }

  lemma FxVegaIsSlope(s: real, sigma: real, sigma': real, rd: real, rf: real, notional: real, k: real, t: real, call: bool, a: real, maths: Maths)
    requires Elementary(maths) && Symmetric(maths.cdf) && Density(maths.cdf, maths.pdf)
    requires s > 0.0 && k > 0.0 && t >= 0.0 && 0.0 <= sigma <= sigma' && notional >= 0.0
    requires a == s * Discount(rf, t, maths) == k * Discount(rd, t, maths)
    requires FxOptionAt(s, sigma, rd, rf, notional, k, t, call, maths).Ok? && FxOptionAt(s, sigma', rd, rf, notional, k, t, call, maths).Ok?
    ensures var v, v' := FxOptionAt(s, sigma, rd, rf, notional, k, t, call, maths).value, FxOptionAt(s, sigma', rd, rf, notional, k, t, call, maths).value;
      SlopesDown(v'.marketValue - v.marketValue, v.vega, v'.vega, (sigma' - sigma) * 100.0)
  {
    hide *;
    ElementaryParts(maths);
    RootAt(t, maths);
    LegPositive(s, rf, t, a, maths);
    FxOptionAtForward(s, sigma, rd, rf, notional, k, t, call, a, maths);
    FxOptionAtForward(s, sigma', rd, rf, notional, k, t, call, a, maths);
    var v, v' := FxOptionAt(s, sigma, rd, rf, notional, k, t, call, maths).value, FxOptionAt(s, sigma', rd, rf, notional, k, t, call, maths).value;
    CentredSlope(notional, a, sigma, sigma', maths.sqrt(t), v.marketValue, v.vega, v'.marketValue, v'.vega, maths);
  }

  // ----- optionlets and swaptions at the forward -----

  lemma OptionletAtForward(f: real, sigma: real, expiry: real, long: bool, maths: Maths) returns (h: real)
    requires Elementary(maths) && Symmetric(maths.cdf) && f > 0.0 && expiry >= 0.0
    requires Optionlet(f, f, sigma, expiry, long, maths).Ok?
    ensures h == 0.5 * (sigma * maths.sqrt(expiry))
    ensures Optionlet(f, f, sigma, expiry, long, maths).value.0 == Central(f, h, maths)
    ensures Optionlet(f, f, sigma, expiry, long, maths).value.1 == maths.pdf(h) * maths.sqrt(expiry)
  {
    hide *;
    ElementaryParts(maths);
    LnOne(maths);
    RootAt(expiry, maths);
    var d1, d2, price := OptionletUnit(f, f, sigma, expiry, long, maths);
    HalfD1(f / f, 0.5 * sigma * sigma * expiry, sigma, maths.sqrt(expiry), expiry, maths);
    h := d1;
    assert d2 == -h;
    CentralPrice(f, h, long, maths);
  }

  lemma PaidCentred(scale: real, weight: real, f: real, h: real, sigma: real, sqrtT: real, unit: Unit, value: real, vega: real, maths: Maths)
    requires value == scale * unit.pv && vega == scale * unit.vega * 0.01 && h == 0.5 * (sigma * sqrtT)
    requires unit.pv == weight * Central(f, h, maths) && unit.vega == weight * f * (maths.pdf(h) * sqrtT)
    ensures Centred(value, vega, scale * weight, f, sigma, sqrtT, maths)
  {
    MulAssoc(scale, weight, Central(f, h, maths));
    var p := maths.pdf(h);
    assert weight * f * (p * sqrtT) == weight * (f * p * sqrtT);
    MulAssoc(scale, weight, f * p * sqrtT);
  }

  lemma PaidAtForward(scale: real, weight: real, f: real, sigma: real, expiry: real, long: bool, message: string, value: real, vega: real, maths: Maths)
    requires Elementary(maths) && Symmetric(maths.cdf) && f > 0.0 && expiry >= 0.0
    requires Weighted(weight, f, Optionlet(f, f, sigma, expiry, long, maths), message).Ok?
    requires var u := Weighted(weight, f, Optionlet(f, f, sigma, expiry, long, maths), message).value;
      value == scale * u.pv && vega == scale * u.vega * 0.01
    ensures Centred(value, vega, scale * weight, f, sigma, maths.sqrt(expiry), maths)
  {
    hide *;
    var optionlet := Optionlet(f, f, sigma, expiry, long, maths);
    var u := Weighted(weight, f, optionlet, message).value;
    WeightedParts(weight, f, optionlet, message);
    var h := OptionletAtForward(f, sigma, expiry, long, maths);
    PaidCentred(scale, weight, f, h, sigma, maths.sqrt(expiry), u, value, vega, maths);
  }

  lemma WeightedParts(weight: real, f: real, o: Result<(real, real), string>, message: string)
    requires Weighted(weight, f, o, message).Ok?
    ensures o.Ok? && Weighted(weight, f, o, message).value.pv == weight * o.value.0 && Weighted(weight, f, o, message).value.vega == weight * f * o.value.1
  {
  }

  /** A swaption struck at the forward swap rate, payer or receiver. */
  lemma SwaptionAtForward(scale: real, annuity: real, f: real, vol: real, t: real, payer: bool, bumped: Unit, maths: Maths)
    requires Elementary(maths) && Symmetric(maths.cdf) && f > 0.0 && t >= 0.0 && vol >= 0.00000001
    requires SwaptionOf(annuity, f, f, vol, t, payer, maths).Ok?
    ensures var v := Scaled(scale, SwaptionOf(annuity, f, f, vol, t, payer, maths).value, bumped);
      Centred(v.marketValue, v.vega, scale * annuity, f, vol, maths.sqrt(t), maths)
  {
    hide *;
    var message := "Black swaption pricing requires a positive forward swap rate";
    SwaptionIs(annuity, f, f, vol, t, payer, message, maths);
    var v := Scaled(scale, SwaptionOf(annuity, f, f, vol, t, payer, maths).value, bumped);
    ScaledParts(scale, SwaptionOf(annuity, f, f, vol, t, payer, maths).value, bumped);
    PaidAtForward(scale, annuity, f, vol, t, payer, message, v.marketValue, v.vega, maths);
  }

  /** Its reported vega is the slope of its reported value, per point of vol. */
  lemma SwaptionVegaIsSlope(scale: real, annuity: real, f: real, vol: real, vol': real, t: real, payer: bool, bumped: Unit, bumped': Unit, maths: Maths)
    requires Elementary(maths) && Symmetric(maths.cdf) && Density(maths.cdf, maths.pdf)
    requires scale >= 0.0 && annuity >= 0.0 && f > 0.0 && t >= 0.0 && 0.00000001 <= vol <= vol'
    requires SwaptionOf(annuity, f, f, vol, t, payer, maths).Ok? && SwaptionOf(annuity, f, f, vol', t, payer, maths).Ok?
    ensures var v, v' := Scaled(scale, SwaptionOf(annuity, f, f, vol, t, payer, maths).value, bumped),
                         Scaled(scale, SwaptionOf(annuity, f, f, vol', t, payer, maths).value, bumped');
      SlopesDown(v'.marketValue - v.marketValue, v.vega, v'.vega, (vol' - vol) * 100.0)
  {
    hide *;
    var v, v' := Scaled(scale, SwaptionOf(annuity, f, f, vol, t, payer, maths).value, bumped),
                 Scaled(scale, SwaptionOf(annuity, f, f, vol', t, payer, maths).value, bumped');
    ElementaryParts(maths);
    RootAt(t, maths);
    SwaptionAtForward(scale, annuity, f, vol, t, payer, bumped, maths);
    SwaptionAtForward(scale, annuity, f, vol', t, payer, bumped', maths);
    ProductNonNegative(scale, annuity, scale * annuity);
    CentredSlope(scale * annuity, f, vol, vol', maths.sqrt(t), v.marketValue, v.vega, v'.marketValue, v'.vega, maths);
  }

  lemma CapletIs(weight: real, f: real, s: Strip, i: nat, cap: bool, message: string, maths: Maths)
    requires s.strike > 0.0 && s.strike == f + s.shift && message == "Black cap/floor pricing requires a positive forward rate"
    ensures CapletAt(weight, f, s, i, cap, maths)
         == Weighted(weight, s.strike, Optionlet(s.strike, s.strike, s.sigma, ExpiryTime(s, i), cap, maths), message)
  {
  }

  lemma ExpiryPositive(s: Strip, i: nat)
    ensures ExpiryTime(s, i) >= 0.0
  {
  }

  /** An optionlet of a cap or floor whose strike is the forward of its period, over the time to the fixing of that period. */
  lemma CapletAtForward(scale: real, weight: real, f: real, s: Strip, i: nat, cap: bool, bumped: Unit, maths: Maths)
    requires Elementary(maths) && Symmetric(maths.cdf) && s.strike > 0.0 && s.strike == f + s.shift
    requires CapletAt(weight, f, s, i, cap, maths).Ok?
    ensures var v := Scaled(scale, CapletAt(weight, f, s, i, cap, maths).value, bumped);
      Centred(v.marketValue, v.vega, scale * weight, s.strike, s.sigma, maths.sqrt(ExpiryTime(s, i)), maths)
  {
    hide *;
    var message := "Black cap/floor pricing requires a positive forward rate";
    CapletIs(weight, f, s, i, cap, message, maths);
    ExpiryPositive(s, i);
    var v := Scaled(scale, CapletAt(weight, f, s, i, cap, maths).value, bumped);
    ScaledParts(scale, CapletAt(weight, f, s, i, cap, maths).value, bumped);
    PaidAtForward(scale, weight, s.strike, s.sigma, ExpiryTime(s, i), cap, message, v.marketValue, v.vega, maths);
  }

  lemma SwaptionIs(annuity: real, f: real, k: real, vol: real, t: real, payer: bool, message: string, maths: Maths)
    requires k > 0.0 && vol >= 0.00000001 && message == "Black swaption pricing requires a positive forward swap rate"
    ensures SwaptionOf(annuity, f, k, vol, t, payer, maths) == Weighted(annuity, f, Optionlet(f, k, vol, t, payer, maths), message)
  {
    assert Max(0.00000001, vol) == vol;
  }

  lemma ScaledParts(scale: real, unit: Unit, bumped: Unit)
    ensures Scaled(scale, unit, bumped).marketValue == scale * unit.pv && Scaled(scale, unit, bumped).vega == scale * unit.vega * 0.01
  {
  }

  // ----- gamma and vega -----

  lemma GammaVega(g: Greeks, s: real, n: real, sigma: real, sqrtT: real, t: real)
    requires sqrtT * sqrtT == t && s * sigma * sqrtT != 0.0
    requires g.gamma == n / (s * sigma * sqrtT) && g.vega == s * n * sqrtT
    ensures g.vega == g.gamma * s * s * (sigma * t)
  {
    hide *;
    Quotient(n, s * sigma * sqrtT);
    GammaTerms(g.gamma, s, sigma, sqrtT, t);
    assert s * n * sqrtT == n * (s * sqrtT);
  }

  lemma GammaTerms(gamma: real, s: real, sigma: real, sqrtT: real, t: real)
    requires sqrtT * sqrtT == t
    ensures gamma * s * s * (sigma * t) == gamma * (s * sigma * sqrtT) * (s * sqrtT)
  {
    assert s * sigma * sqrtT * (s * sqrtT) == s * s * (sigma * t) by {
      assert s * sigma * sqrtT * (s * sqrtT) == s * s * sigma * (sqrtT * sqrtT);
      MulAssoc(s * s, sigma, t);
    }
    MulAssoc(gamma, s * sigma * sqrtT, s * sqrtT);
    assert gamma * s * s * (sigma * t) == gamma * (s * s * (sigma * t));
  }

  lemma UnitGammaVega(d1: real, s: real, k: real, ds: real, dk: real, sigma: real, sqrtT: real, t: real, call: bool, g: Greeks, maths: Maths)
    requires sqrtT * sqrtT == t && GreeksFrom(Ok(d1), s, k, ds, dk, sigma, sqrtT, call, maths) == Ok(g)
    ensures g.vega == g.gamma * s * s * (sigma * t)
  {
    var n := ds * maths.pdf(d1);
    assert s * ds * maths.pdf(d1) * sqrtT == s * n * sqrtT;
    GammaVega(g, s, n, sigma, sqrtT, t);
  }

  lemma SizedGammaVega(units: real, g: Greeks, s: real, w: real, gamma: real, vega: real)
    requires g.vega == g.gamma * s * s * w && gamma == units * g.gamma * s * s && vega == units * g.vega * 0.01
    ensures vega == gamma * w * 0.01
  {
    assert units * (g.gamma * s * s * w) == units * g.gamma * s * s * w;
  }

  /** The reported vega of an option is its reported gamma times vol, maturity and a hundredth, whatever pdf is. */
  lemma OptionGammaVega(s: real, sigma: real, r: real, q: real, quantity: real, k: real, t: real, call: bool, maths: Maths)
    requires Root(maths.sqrt) && t >= 0.0 && EuropeanOptionAt(s, sigma, r, q, quantity, k, t, call, maths).Ok?
    ensures var v := EuropeanOptionAt(s, sigma, r, q, quantity, k, t, call, maths).value;
      v.vega == v.gamma * (sigma * t) * 0.01
  {
    hide *;
    var d1, d2, g := EquityUnit(s, sigma, r, q, quantity, k, t, call, maths);
    RootAt(t, maths);
    UnitGammaVega(d1, s, k, Discount(q, t, maths), Discount(r, t, maths), sigma, maths.sqrt(t), t, call, g, maths);
    SizedGammaVega(quantity, g, s, sigma * t, quantity * g.gamma * s * s, quantity * g.vega * 0.01);
  }

  lemma FxGammaVega(s: real, sigma: real, rd: real, rf: real, notional: real, k: real, t: real, call: bool, maths: Maths)
    requires Root(maths.sqrt) && t >= 0.0 && k > 0.0 && FxOptionAt(s, sigma, rd, rf, notional, k, t, call, maths).Ok?
    ensures var v := FxOptionAt(s, sigma, rd, rf, notional, k, t, call, maths).value;
      v.vega == v.gamma * (sigma * t) * 0.01
  {
    hide *;
    var d1, d2, g := FxUnit(s, sigma, rd, rf, notional, k, t, call, maths);
    RootAt(t, maths);
    UnitGammaVega(d1, s, k, Discount(rf, t, maths), Discount(rd, t, maths), sigma, maths.sqrt(t), t, call, g, maths);
    SizedGammaVega(notional, g, s, sigma * t, notional * g.gamma * s * s, notional * g.vega * 0.01);
  }
}
