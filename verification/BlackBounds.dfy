/**
 * What an option of the builtin pricer is worth (pricing/builtin.py): bounds from the shape of a distribution alone, its value
 * and vega when struck at the forward, gamma against vega, and a currency option seen from the other currency.
 */
module BlackBounds {
  import opened Wrappers
  import opened RealMath
  import opened Vectors
  import opened HistoricalEngine
  import opened Builtin
  import opened Parity

  ghost predicate Distribution(cdf: real -> real) {
    && (forall x :: 0.0 <= cdf(x) <= 1.0)
    && (forall x, y :: x <= y ==> cdf(x) <= cdf(y))
  }

  /** pdf falls away from zero and is the slope of cdf there. */
  ghost predicate Density(cdf: real -> real, pdf: real -> real) {
    forall x, y :: 0.0 <= x <= y ==> pdf(y) * (y - x) <= cdf(y) - cdf(x) <= pdf(x) * (y - x)
  }

  ghost predicate Positive(exp: real -> real) {
    forall x :: exp(x) > 0.0
  }

  ghost predicate Root(sqrt: real -> real) {
    forall t :: t >= 0.0 ==> sqrt(t) >= 0.0 && sqrt(t) * sqrt(t) == t
  }

  /** ln undoes exp, and exp undoes ln. */
  ghost predicate Logarithm(ln: real -> real, exp: real -> real) {
    && (forall x :: ln(exp(x)) == x)
    && (forall x :: x > 0.0 ==> exp(ln(x)) == x)
  }

  /** exp, ln and sqrt are the functions of those names, as far as pricing goes. */
  ghost predicate Elementary(maths: Maths) {
    Positive(maths.exp) && Multiplicative(maths.exp) && Logarithm(maths.ln, maths.exp) && Root(maths.sqrt)
  }

  // ----- bounds -----

  /** A price received for the leg a against the leg b: at least either chance of a less b, at most the first chance of a. */
  predicate Between(price: real, a: real, b: real, p1: real, p2: real) {
    p1 * (a - b) <= price <= a * p1 && p2 * (a - b) <= price
  }

  predicate Chances(p1: real, p2: real) {
    0.0 <= p2 <= p1 <= 1.0
  }

  lemma LegBetween(a: real, b: real, p1: real, p2: real, price: real)
    requires a >= 0.0 && b >= 0.0 && Chances(p1, p2) && price == a * p1 - b * p2
    ensures Between(price, a, b, p1, p2)
  {
    MulMonotone(p2, p1, a);
    MulMonotone(p2, p1, b);
    ProductNonNegative(b, p2, b * p2);
    assert p1 * (a - b) == a * p1 - b * p1;
    assert p2 * (a - b) == a * p2 - b * p2;
  }

  lemma ChancesOf(cdf: real -> real, d1: real, d2: real)
    requires Distribution(cdf) && d2 <= d1
    ensures Chances(cdf(d1), cdf(d2)) && Chances(cdf(-d2), cdf(-d1))
  {
    assert -d1 <= -d2;
  }

  lemma PriceFrom(a: real, b: real, d1: real, d2: real, maths: Maths)
    requires a >= 0.0 && b >= 0.0 && Chances(maths.cdf(d1), maths.cdf(d2)) && Chances(maths.cdf(-d2), maths.cdf(-d1))
    ensures Between(BlackPrice(a, b, d1, d2, true, maths), a, b, maths.cdf(d1), maths.cdf(d2))
    ensures Between(BlackPrice(a, b, d1, d2, false, maths), b, a, maths.cdf(-d2), maths.cdf(-d1))
  {
    LegBetween(a, b, maths.cdf(d1), maths.cdf(d2), BlackPrice(a, b, d1, d2, true, maths));
    LegBetween(b, a, maths.cdf(-d2), maths.cdf(-d1), BlackPrice(a, b, d1, d2, false, maths));
  }

  /**
   * Whatever the distribution, a call on a struck at b is worth at most its share of a, and at least its share of what
   * exercising pays; a put is the same with the legs exchanged.
   */
  lemma PriceBounds(a: real, b: real, d1: real, d2: real, maths: Maths)
    requires Distribution(maths.cdf) && a >= 0.0 && b >= 0.0 && d2 <= d1
    ensures Between(BlackPrice(a, b, d1, d2, true, maths), a, b, maths.cdf(d1), maths.cdf(d2))
    ensures Between(BlackPrice(a, b, d1, d2, false, maths), b, a, maths.cdf(-d2), maths.cdf(-d1))
  {
    ChancesOf(maths.cdf, d1, d2);
    PriceFrom(a, b, d1, d2, maths);
  }

  /**
   * Delta is the spot leg times the probability of exercise, negative for a put. The value is at least what that pays against the
   * strike leg b, and at most the given amount.
   */
  predicate Fair(value: real, delta: real, a: real, b: real, most: real)
    requires a != 0.0
  {
    delta - delta * (b / a) <= value <= most
  }

  lemma ShareOfStrike(a: real, b: real, p: real, price: real, most: real, delta: real)
    requires a > 0.0 && p * (a - b) <= price <= most && delta == a * p
    ensures Fair(price, delta, a, b, most)
  {
    var x := b / a;
    Quotient(b, a);
    assert a * p * x == p * (x * a);
    assert p * (a - b) == p * a - p * b;
  }

  lemma ScaledFair(q: real, price: real, delta: real, a: real, b: real, most: real)
    requires q >= 0.0 && a != 0.0 && Fair(price, delta, a, b, most)
    ensures Fair(q * price, q * delta, a, b, q * most)
  {
    var x := b / a;
    MulMonotone(price, most, q);
    MulMonotone(delta - delta * x, price, q);
    assert q * (delta - delta * x) == q * delta - q * (delta * x);
    assert q * delta * x == q * (delta * x);
  }

  lemma CallFair(a: real, b: real, p1: real, p2: real, price: real)
    requires a > 0.0 && Between(price, a, b, p1, p2)
    ensures Fair(price, a * p1, a, b, a * p1)
  {
    ShareOfStrike(a, b, p1, price, a * p1, a * p1);
  }

  lemma PutFair(a: real, b: real, p1: real, p2: real, price: real, p: real)
    requires a > 0.0 && b >= 0.0 && p2 <= 1.0 && Between(price, b, a, p2, p1) && p == -p1
    ensures Fair(price, a * p, a, b, b)
  {
    MulMonotone(p2, 1.0, b);
    assert p * (a - b) == p1 * (b - a);
    ShareOfStrike(a, b, p, price, b, a * p);
  }

  lemma SpotLeg(s: real, ds: real, p: real)
    ensures ds * p * s == s * ds * p
  {
  }

  function Most(call: bool, delta: real, b: real): real {
    if call then delta else b
  }

  /** Price and delta of one unit, and the chances of its d1 and d2. */
  lemma UnitFair(p1: real, s: real, ds: real, a: real, b: real, call: bool, price: real, q1: real, p2: real, q2: real, delta: real)
    requires a == s * ds && a > 0.0 && b >= 0.0 && q1 == 1.0 - p1 && q2 <= 1.0
    requires call ==> Between(price, a, b, p1, p2) && delta == ds * p1 * s
    requires !call ==> Between(price, b, a, q2, q1) && delta == ds * (p1 - 1.0) * s
    ensures Fair(price, delta, a, b, Most(call, delta, b))
  {
    if call {
      SpotLeg(s, ds, p1);
      CallFair(a, b, p1, p2, price);
    } else {
      SpotLeg(s, ds, p1 - 1.0);
      PutFair(a, b, q1, q2, price, p1 - 1.0);
    }
  }

  /** What d1 and d2 come to under a distribution. */
  predicate Exercise(d1: real, d2: real, maths: Maths) {
    && Chances(maths.cdf(d1), maths.cdf(d2)) && Chances(maths.cdf(-d2), maths.cdf(-d1))
    && maths.cdf(-d1) == 1.0 - maths.cdf(d1)
  }

  lemma ExerciseOf(d1: real, d2: real, maths: Maths)
    requires Distribution(maths.cdf) && Symmetric(maths.cdf) && d2 <= d1
    ensures Exercise(d1, d2, maths)
  {
    ChancesOf(maths.cdf, d1, d2);
  }

  lemma GreeksParts(d1: real, d2: real, s: real, k: real, ds: real, dk: real, sigma: real, sqrtT: real, call: bool, g: Greeks, delta: real,
                    maths: Maths)
    requires d2 == d1 - sigma * sqrtT && GreeksFrom(Ok(d1), s, k, ds, dk, sigma, sqrtT, call, maths) == Ok(g) && delta == g.delta * s
    ensures g.price == BlackPrice(s * ds, k * dk, d1, d2, call, maths)
    ensures delta == if call then ds * maths.cdf(d1) * s else ds * (maths.cdf(d1) - 1.0) * s
  {
  }

  lemma ExerciseParts(d1: real, d2: real, maths: Maths)
    requires Exercise(d1, d2, maths)
    ensures Chances(maths.cdf(d1), maths.cdf(d2)) && Chances(maths.cdf(-d2), maths.cdf(-d1))
    ensures maths.cdf(-d2) <= 1.0 && maths.cdf(-d1) == 1.0 - maths.cdf(d1)
  {
  }

  lemma GreeksFair(d1: real, d2: real, s: real, k: real, ds: real, dk: real, sigma: real, sqrtT: real, call: bool, g: Greeks, a: real, b: real,
                   delta: real, maths: Maths)
    requires Exercise(d1, d2, maths) && d2 == d1 - sigma * sqrtT
    requires a == s * ds && b == k * dk && a > 0.0 && b >= 0.0
    requires GreeksFrom(Ok(d1), s, k, ds, dk, sigma, sqrtT, call, maths) == Ok(g) && delta == g.delta * s
    ensures Fair(g.price, delta, a, b, Most(call, delta, b))
  {
    hide *;
    ExerciseParts(d1, d2, maths);
    GreeksParts(d1, d2, s, k, ds, dk, sigma, sqrtT, call, g, delta, maths);
    PriceFrom(a, b, d1, d2, maths);
    UnitFair(maths.cdf(d1), s, ds, a, b, call, g.price, maths.cdf(-d1), maths.cdf(d2), maths.cdf(-d2), delta);
  }

  lemma PositiveStrike(s: real, k: real, x: real)
    requires s > 0.0 && k != 0.0 && x == s / k && x > 0.0
    ensures k > 0.0
  {
    Quotient(s, k);
    if k < 0.0 {
      ProductPositive(x, -k, x * -k);
      assert false;
    }
  }

  lemma EquityUnit(s: real, sigma: real, r: real, q: real, quantity: real, k: real, t: real, call: bool, maths: Maths) returns (d1: real, d2: real, g: Greeks)
    requires EuropeanOptionAt(s, sigma, r, q, quantity, k, t, call, maths).Ok?
    ensures k != 0.0 && s / k > 0.0
    ensures GreeksFrom(Ok(d1), s, k, Discount(q, t, maths), Discount(r, t, maths), sigma, maths.sqrt(t), call, maths) == Ok(g)
    ensures var v := EuropeanOptionAt(s, sigma, r, q, quantity, k, t, call, maths).value;
      && v.marketValue == quantity * g.price && v.delta == quantity * g.delta * s
      && v.gamma == quantity * g.gamma * s * s && v.vega == quantity * g.vega * 0.01
    ensures Ok(d1) == D1(s / k, Drift(r - q, sigma, t), sigma, maths.sqrt(t), maths) && d2 == d1 - sigma * maths.sqrt(t)
  {
    d1 := D1(s / k, Drift(r - q, sigma, t), sigma, maths.sqrt(t), maths).value;
    d2 := d1 - sigma * maths.sqrt(t);
    g := GreeksFrom(Ok(d1), s, k, Discount(q, t, maths), Discount(r, t, maths), sigma, maths.sqrt(t), call, maths).value;
  }

  lemma FxUnit(s: real, sigma: real, rd: real, rf: real, notional: real, k: real, t: real, call: bool, maths: Maths) returns (d1: real, d2: real, g: Greeks)
    requires k > 0.0 && FxOptionAt(s, sigma, rd, rf, notional, k, t, call, maths).Ok?
    ensures s / k > 0.0
    ensures GreeksFrom(Ok(d1), s, k, Discount(rf, t, maths), Discount(rd, t, maths), sigma, maths.sqrt(t), call, maths) == Ok(g)
    ensures var v := FxOptionAt(s, sigma, rd, rf, notional, k, t, call, maths).value;
      && v.marketValue == notional * g.price && v.fxDelta == notional * g.delta * s
      && v.gamma == notional * g.gamma * s * s && v.vega == notional * g.vega * 0.01
    ensures Ok(d1) == D1(s / k, Drift(rd - rf, sigma, t), sigma, maths.sqrt(t), maths) && d2 == d1 - sigma * maths.sqrt(t)
  {
    d1 := D1(s / k, Drift(rd - rf, sigma, t), sigma, maths.sqrt(t), maths).value;
    d2 := d1 - sigma * maths.sqrt(t);
    g := GreeksFrom(Ok(d1), s, k, Discount(rf, t, maths), Discount(rd, t, maths), sigma, maths.sqrt(t), call, maths).value;
  }

  lemma SizedFair(quantity: real, g: Greeks, s: real, a: real, b: real, call: bool, value: real, delta: real)
    requires a != 0.0 && quantity >= 0.0 && Fair(g.price, g.delta * s, a, b, Most(call, g.delta * s, b))
    requires value == quantity * g.price && delta == quantity * g.delta * s
    ensures Fair(value, delta, a, b, Most(call, delta, quantity * b))
  {
    ScaledFair(quantity, g.price, g.delta * s, a, b, Most(call, g.delta * s, b));
    MulAssoc(quantity, g.delta, s);
  }

  lemma LegPositive(x: real, rate: real, t: real, leg: real, maths: Maths)
    requires Positive(maths.exp) && x > 0.0 && leg == x * Discount(rate, t, maths)
    ensures leg > 0.0
  {
    ProductPositive(x, Discount(rate, t, maths), leg);
  }

  /**
   * An equity option the pricer values is worth at most its delta if a call and its discounted strike if a put, and at least what
   * its delta earns on exercise: so never less than nothing when struck at the forward or in the money.
   */
  lemma OptionBounds(s: real, sigma: real, r: real, q: real, quantity: real, k: real, t: real, call: bool, a: real, b: real, maths: Maths)
    requires Distribution(maths.cdf) && Symmetric(maths.cdf) && Positive(maths.exp)
    requires s > 0.0 && sigma * maths.sqrt(t) >= 0.0 && quantity >= 0.0
    requires EuropeanOptionAt(s, sigma, r, q, quantity, k, t, call, maths).Ok?
    requires a == s * Discount(q, t, maths) && b == k * Discount(r, t, maths)
    ensures k > 0.0 && a > 0.0
    ensures var v := EuropeanOptionAt(s, sigma, r, q, quantity, k, t, call, maths).value;
      Fair(v.marketValue, v.delta, a, b, Most(call, v.delta, quantity * b))
  {
    hide *;
    var d1, d2, g := EquityUnit(s, sigma, r, q, quantity, k, t, call, maths);
    PositiveStrike(s, k, s / k);
    LegPositive(s, q, t, a, maths);
    LegPositive(k, r, t, b, maths);
    ExerciseOf(d1, d2, maths);
    GreeksFair(d1, d2, s, k, Discount(q, t, maths), Discount(r, t, maths), sigma, maths.sqrt(t), call, g, a, b, g.delta * s, maths);
    SizedFair(quantity, g, s, a, b, call, quantity * g.price, quantity * g.delta * s);
  }

  /** The same of a currency option. */
  lemma FxOptionBounds(s: real, sigma: real, rd: real, rf: real, notional: real, k: real, t: real, call: bool, a: real, b: real, maths: Maths)
    requires Distribution(maths.cdf) && Symmetric(maths.cdf) && Positive(maths.exp)
    requires s > 0.0 && k > 0.0 && sigma * maths.sqrt(t) >= 0.0 && notional >= 0.0
    requires FxOptionAt(s, sigma, rd, rf, notional, k, t, call, maths).Ok?
    requires a == s * Discount(rf, t, maths) && b == k * Discount(rd, t, maths)
    ensures a > 0.0
    ensures var v := FxOptionAt(s, sigma, rd, rf, notional, k, t, call, maths).value;
      Fair(v.marketValue, v.fxDelta, a, b, Most(call, v.fxDelta, notional * b))
  {
    hide *;
    var d1, d2, g := FxUnit(s, sigma, rd, rf, notional, k, t, call, maths);
    LegPositive(s, rf, t, a, maths);
    LegPositive(k, rd, t, b, maths);
    ExerciseOf(d1, d2, maths);
    GreeksFair(d1, d2, s, k, Discount(rf, t, maths), Discount(rd, t, maths), sigma, maths.sqrt(t), call, g, a, b, g.delta * s, maths);
    SizedFair(notional, g, s, a, b, call, notional * g.price, notional * g.delta * s);
  }

  // ----- optionlets and swaptions -----

  /** Never worth less than nothing at the money or in it, never more than the leg it receives. */
  predicate Sensible(pv: real, weight: real, f: real, k: real, long: bool) {
    && (long ==> (f >= k ==> pv >= 0.0) && pv <= weight * f)
    && (!long ==> (f <= k ==> pv >= 0.0) && pv <= weight * k)
  }

  lemma LegSensible(weight: real, received: real, paid: real, p: real, price: real, pv: real)
    requires weight >= 0.0 && received >= 0.0 && 0.0 <= p <= 1.0 && pv == weight * price
    requires p * (received - paid) <= price <= received * p
    ensures (received >= paid ==> pv >= 0.0) && pv <= weight * received
  {
    MulMonotone(p, 1.0, received);
    MulMonotone(price, received, weight);
    if received >= paid {
      ProductNonNegative(p, received - paid, p * (received - paid));
      ProductNonNegative(weight, price, pv);
    }
  }

  lemma PaidBounds(weight: real, f: real, k: real, sigma: real, expiry: real, long: bool, message: string, maths: Maths)
    requires Distribution(maths.cdf) && Symmetric(maths.cdf) && k > 0.0 && weight >= 0.0 && sigma * maths.sqrt(expiry) >= 0.0
    requires Weighted(weight, f, Optionlet(f, k, sigma, expiry, long, maths), message).Ok?
    ensures Sensible(Weighted(weight, f, Optionlet(f, k, sigma, expiry, long, maths), message).value.pv, weight, f, k, long)
  {
    var d1, d2, price := OptionletUnit(f, k, sigma, expiry, long, maths);
    assert Weighted(weight, f, Optionlet(f, k, sigma, expiry, long, maths), message).value.pv == weight * price && f >= 0.0;
    hide *;
    ExerciseOf(d1, d2, maths);
    LegsBounds(f, k, d1, d2, long, weight, price, weight * price, maths);
  }

  lemma OptionletUnit(f: real, k: real, sigma: real, expiry: real, long: bool, maths: Maths) returns (d1: real, d2: real, price: real)
    requires k > 0.0 && Optionlet(f, k, sigma, expiry, long, maths).Ok?
    ensures D1(f / k, 0.5 * sigma * sigma * expiry, sigma, maths.sqrt(expiry), maths) == Ok(d1) && d2 == d1 - sigma * maths.sqrt(expiry)
    ensures price == BlackPrice(f, k, d1, d2, long, maths)
    ensures Optionlet(f, k, sigma, expiry, long, maths).value.0 == price
    ensures Optionlet(f, k, sigma, expiry, long, maths).value.1 == maths.pdf(d1) * maths.sqrt(expiry)
  {
    var d := D1(f / k, 0.5 * sigma * sigma * expiry, sigma, maths.sqrt(expiry), maths);
    assert OptionletFrom(d, f, k, sigma, maths.sqrt(expiry), long, maths).Ok?;
    d1 := d.value;
    d2 := d1 - sigma * maths.sqrt(expiry);
    price := BlackPrice(f, k, d1, d2, long, maths);
  }

  lemma LegsBounds(f: real, k: real, d1: real, d2: real, long: bool, weight: real, price: real, pv: real, maths: Maths)
    requires Exercise(d1, d2, maths) && f >= 0.0 && k >= 0.0 && weight >= 0.0
    requires price == BlackPrice(f, k, d1, d2, long, maths) && pv == weight * price
    ensures Sensible(pv, weight, f, k, long)
  {
    PriceFrom(f, k, d1, d2, maths);
    if long {
      LegSensible(weight, f, k, maths.cdf(d1), price, pv);
    } else {
      LegSensible(weight, k, f, maths.cdf(-d2), price, pv);
    }
  }

  /** A payer struck at or below the forward swap rate, or a receiver at or above it, is never worth less than nothing. */
  lemma SwaptionBounds(annuity: real, f: real, k: real, vol: real, t: real, payer: bool, maths: Maths)
    requires Distribution(maths.cdf) && Symmetric(maths.cdf) && Root(maths.sqrt) && k > 0.0 && annuity >= 0.0 && t >= 0.0
    requires SwaptionOf(annuity, f, k, vol, t, payer, maths).Ok?
    ensures Sensible(SwaptionOf(annuity, f, k, vol, t, payer, maths).value.pv, annuity, f, k, payer)
  {
    var sigma := Max(0.00000001, vol);
    ProductNonNegative(sigma, maths.sqrt(t), sigma * maths.sqrt(t));
    PaidBounds(annuity, f, k, sigma, t, payer, "Black swaption pricing requires a positive forward swap rate", maths);
  }

  lemma CapletBounds(weight: real, f: real, s: Strip, i: nat, cap: bool, maths: Maths)
    requires Distribution(maths.cdf) && Symmetric(maths.cdf) && Root(maths.sqrt) && s.strike > 0.0 && s.sigma >= 0.0 && weight >= 0.0
    requires CapletAt(weight, f, s, i, cap, maths).Ok?
    ensures Sensible(CapletAt(weight, f, s, i, cap, maths).value.pv, weight, f + s.shift, s.strike, cap)
  {
    ProductNonNegative(s.sigma, maths.sqrt(ExpiryTime(s, i)), s.sigma * maths.sqrt(ExpiryTime(s, i)));
    PaidBounds(weight, f + s.shift, s.strike, s.sigma, ExpiryTime(s, i), cap, "Black cap/floor pricing requires a positive forward rate", maths);
  }
}
