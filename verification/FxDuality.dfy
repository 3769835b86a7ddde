/**
 * A currency option is the right to exchange one currency for another, so the call one side sees is the put the other side sees
 * (pricing/builtin.py: _fx_option). The other side quotes the inverse rate and struck price, with the two interest rates exchanged.
 */
module FxDuality {
  import opened Wrappers
  import opened RealMath
  import opened HistoricalEngine
  import opened Builtin
  import opened Parity
  import opened BlackBounds
  import opened AtForward

  lemma InverseRatio(s: real, k: real, x: real)
    requires s > 0.0 && k > 0.0 && x == s / k
    ensures x > 0.0 && (1.0 / s) / (1.0 / k) == 1.0 / x
  {
    Quotient(s, k);
    Quotient(1.0, s);
    Quotient(1.0, k);
    var u, w := 1.0 / s, 1.0 / k;
    if x <= 0.0 {
      ProductNonNegative(-x, k, -x * k);
      assert false;
    }
    Quotient(1.0, x);
    var y := 1.0 / x;
    assert y * w == u by {
      assert s == x * k;
      assert y * w * s == y * x * (w * k);
      MulCancelEq(y * w, u, s);
    }
    if w <= 0.0 {
      ProductNonNegative(-w, k, -w * k);
      assert false;
    }
    QuotientIs(u, w, y);
  }

  lemma ExpLn(x: real, maths: Maths)
    requires Logarithm(maths.ln, maths.exp) && x > 0.0
    ensures maths.exp(maths.ln(x)) == x
  {
  }

  lemma LnInverse(x: real, y: real, maths: Maths)
    requires Elementary(maths) && x > 0.0 && y == 1.0 / x
    ensures maths.ln(y) == -maths.ln(x)
  {
    hide *;
    ElementaryParts(maths);
    var l := maths.ln(x);
    ExpLn(x, maths);
    ExpZero(maths);
    ExpSum(l, -l, 0.0, maths);
    var e := maths.exp(-l);
    QuotientIs(1.0, x, e);
    LnExp(-l, y, maths);
  }

  /** n and n' are the numerators of the two d1, which add up to the variance. */
  lemma MirroredQuotient(n: real, n': real, v: real)
    requires v != 0.0 && n + n' == v * v
    ensures n' / v == v - n / v
  {
    Quotient(n, v);
    var d := n / v;
    assert (v - d) * v == v * v - n;
    QuotientIs(n', v, v - d);
  }

  lemma Numerators(l: real, c: real, sigma: real, sqrtT: real, t: real, v: real)
    requires sqrtT * sqrtT == t && v == sigma * sqrtT
    ensures (l + Drift(c, sigma, t)) + (-l + Drift(-c, sigma, t)) == v * v
  {
    SquareOfProduct(sigma, sqrtT);
    assert (c + 0.5 * sigma * sigma) * t == c * t + 0.5 * sigma * sigma * t;
    assert (-c + 0.5 * sigma * sigma) * t == -(c * t) + 0.5 * sigma * sigma * t;
    assert 0.5 * sigma * sigma * t + 0.5 * sigma * sigma * t == sigma * sigma * t;
  }

  lemma D1Is(ratio: real, drift: real, sigma: real, sqrtT: real, v: real, maths: Maths)
    requires v == sigma * sqrtT
    ensures D1(ratio, drift, sigma, sqrtT, maths).Ok? <==> ratio > 0.0 && v != 0.0
    ensures D1(ratio, drift, sigma, sqrtT, maths).Ok? ==> D1(ratio, drift, sigma, sqrtT, maths).value == (maths.ln(ratio) + drift) / v
  {
  }

  /** From the other side, d1 is the negative of d2. */
  lemma MirroredD1(x: real, y: real, c: real, sigma: real, t: real, d: real, maths: Maths)
    requires Elementary(maths) && t >= 0.0 && x > 0.0 && y == 1.0 / x
    requires D1(x, Drift(c, sigma, t), sigma, maths.sqrt(t), maths) == Ok(d)
    ensures D1(y, Drift(-c, sigma, t), sigma, maths.sqrt(t), maths) == Ok(sigma * maths.sqrt(t) - d)
  {
    hide *;
    ElementaryParts(maths);
    RootAt(t, maths);
    LnInverse(x, y, maths);
    Quotient(1.0, x);
    if y <= 0.0 {
      ProductNonNegative(-y, x, -y * x);
      assert false;
    }
    var sqrtT, v := maths.sqrt(t), sigma * maths.sqrt(t);
    var n, n' := maths.ln(x) + Drift(c, sigma, t), maths.ln(y) + Drift(-c, sigma, t);
    D1Is(x, Drift(c, sigma, t), sigma, sqrtT, v, maths);
    D1Is(y, Drift(-c, sigma, t), sigma, sqrtT, v, maths);
    Numerators(maths.ln(x), c, sigma, sqrtT, t, v);
    MirroredQuotient(n, n', v);
  }

  /** s notional' of the inverse legs are notional of the legs. */
  lemma InverseLegs(s: real, k: real, notional: real, ds: real, dk: real, n1: real, n2: real)
    requires s > 0.0 && k > 0.0
    ensures s * (notional * k * (1.0 / k * ds * n1 - 1.0 / s * dk * n2)) == notional * (s * ds * n1 - k * dk * n2)
  {
    Quotient(1.0, s);
    Quotient(1.0, k);
    var u, w, x, y := 1.0 / s, 1.0 / k, ds * n1, dk * n2;
    MulAssoc(w, ds, n1);
    MulAssoc(u, dk, n2);
    MulAssoc(s, ds, n1);
    MulAssoc(k, dk, n2);
    CancelInverse(k, w, x);
    CancelInverse(s, u, k * y);
    MulAssoc(k, u, y);
    MulAssoc(u, k, y);
    Assemble(s, k, notional, w * x, u * y, s * x, k * y);
  }

  lemma CancelInverse(k: real, w: real, x: real)
    requires w * k == 1.0
    ensures k * (w * x) == x
  {
    MulAssoc(k, w, x);
  }

  lemma Assemble(s: real, k: real, notional: real, wx: real, uy: real, sx: real, ky: real)
    requires s * (k * wx) == sx && s * (k * uy) == ky
    ensures s * (notional * k * (wx - uy)) == notional * (sx - ky)
  {
    assert k * (wx - uy) == k * wx - k * uy;
    assert s * (k * wx - k * uy) == sx - ky;
    assert s * (notional * k * (wx - uy)) == notional * (s * (k * (wx - uy)));
  }

  /** The call in the quote currency, and the put on the inverse pair in its quote currency, which is the base of the first. */
  lemma FxDuality(s: real, sigma: real, rd: real, rf: real, notional: real, k: real, t: real, maths: Maths)
    requires Elementary(maths) && t >= 0.0 && s > 0.0 && k > 0.0
    requires FxOptionAt(s, sigma, rd, rf, notional, k, t, true, maths).Ok?
    ensures 1.0 / k > 0.0 && FxOptionAt(1.0 / s, sigma, rf, rd, notional * k, 1.0 / k, t, false, maths).Ok?
    ensures FxOptionAt(s, sigma, rd, rf, notional, k, t, true, maths).value.marketValue
         == s * FxOptionAt(1.0 / s, sigma, rf, rd, notional * k, 1.0 / k, t, false, maths).value.marketValue
  {
    hide *;
    var d1, d2, g := FxUnit(s, sigma, rd, rf, notional, k, t, true, maths);
    PositiveInverse(k);
    InverseRatio(s, k, s / k);
    MirroredD1(s / k, 1.0 / (s / k), rd - rf, sigma, t, d1, maths);
    assert -(rd - rf) == rf - rd;
    FxOk(1.0 / s, sigma, rf, rd, notional * k, 1.0 / k, t, false, maths);
    var e1, e2, p := FxUnit(1.0 / s, sigma, rf, rd, notional * k, 1.0 / k, t, false, maths);
    UnitPrice(d1, d2, s, k, Discount(rf, t, maths), Discount(rd, t, maths), sigma, maths.sqrt(t), true, g, s * Discount(rf, t, maths), k * Discount(rd, t, maths), maths);
    UnitPrice(e1, e2, 1.0 / s, 1.0 / k, Discount(rd, t, maths), Discount(rf, t, maths), sigma, maths.sqrt(t), false, p, 1.0 / s * Discount(rd, t, maths),
              1.0 / k * Discount(rf, t, maths), maths);
    MirroredPrices(s, k, notional, Discount(rf, t, maths), Discount(rd, t, maths), d1, d2, e1, e2, g.price, p.price,
                   s * Discount(rf, t, maths), k * Discount(rd, t, maths), 1.0 / s * Discount(rd, t, maths), 1.0 / k * Discount(rf, t, maths), maths);
  }

  lemma PositiveInverse(k: real)
    requires k > 0.0
    ensures 1.0 / k > 0.0
  {
    Quotient(1.0, k);
    var w := 1.0 / k;
    if w <= 0.0 {
      ProductNonNegative(-w, k, -w * k);
      assert false;
    }
  }

  lemma UnitPrice(d1: real, d2: real, s: real, k: real, ds: real, dk: real, sigma: real, sqrtT: real, call: bool, g: Greeks, a: real, b: real,
                  maths: Maths)
    requires d2 == d1 - sigma * sqrtT && GreeksFrom(Ok(d1), s, k, ds, dk, sigma, sqrtT, call, maths) == Ok(g) && a == s * ds && b == k * dk
    ensures g.price == BlackPrice(a, b, d1, d2, call, maths)
  {
  }

  lemma MirroredPrices(s: real, k: real, notional: real, ds: real, dk: real, d1: real, d2: real, e1: real, e2: real, price: real, price': real,
                       a: real, b: real, a': real, b': real, maths: Maths)
    requires s > 0.0 && k > 0.0 && e1 == -d2 && e2 == -d1
    requires a == s * ds && b == k * dk && a' == 1.0 / s * dk && b' == 1.0 / k * ds
    requires price == BlackPrice(a, b, d1, d2, true, maths) && price' == BlackPrice(a', b', e1, e2, false, maths)
    ensures notional * price == s * (notional * k * price')
  {
    assert -e1 == d2 && -e2 == d1;
    InverseLegs(s, k, notional, ds, dk, maths.cdf(d1), maths.cdf(d2));
  }

  /** A currency option is priced when its ratio is positive and its total volatility is not zero. */
  lemma FxOk(s: real, sigma: real, rd: real, rf: real, notional: real, k: real, t: real, call: bool, maths: Maths)
    requires s > 0.0 && k > 0.0 && D1(s / k, Drift(rd - rf, sigma, t), sigma, maths.sqrt(t), maths).Ok?
    ensures FxOptionAt(s, sigma, rd, rf, notional, k, t, call, maths).Ok?
  {
  }
}
