/** Small facts about real products and quotients, one step each. */
module RealMath {
  lemma MulMonotone(a: real, b: real, c: real)
    requires a <= b && c >= 0.0
    ensures a * c <= b * c && c * a <= c * b
  {
    assert (b - a) * c >= 0.0;
  }

  lemma MulStrict(a: real, b: real, c: real)
    requires a < b && c > 0.0
    ensures a * c < b * c && c * a < c * b
  {
    assert (b - a) * c > 0.0;
  }

  lemma MulCancel(a: real, b: real, c: real)
    requires a * c <= b * c && c > 0.0
    ensures a <= b
  {
    if b < a {
      MulStrict(b, a, c);
      assert false;
    }
  }

  lemma MulCancelEq(a: real, b: real, c: real)
    requires a * c == b * c && c != 0.0
    ensures a == b
  {
    if c > 0.0 {
      MulCancel(a, b, c);
      MulCancel(b, a, c);
    } else {
      assert a * -c == b * -c;
      MulCancel(a, b, -c);
      MulCancel(b, a, -c);
    }
  }

  lemma Quotient(a: real, b: real)
    requires b != 0.0
    ensures a / b * b == a
  {
  }

  lemma QuotientIs(a: real, b: real, q: real)
    requires b != 0.0 && a == q * b
    ensures a / b == q
  {
    Quotient(a, b);
    MulCancelEq(a / b, q, b);
  }

  lemma QuotientAdds(a: real, b: real, s: real, m: real)
    requires m != 0.0 && s == a + b
    ensures s / m == a / m + b / m
  {
    var p, q := a / m, b / m;
    Quotient(a, m);
    Quotient(b, m);
    QuotientIs(s, m, p + q);
  }

  lemma MulSame(a: real, b: real, c: real)
    requires b == c
    ensures a * b == a * c && b * a == c * a
  {
  }

  lemma MulAssoc(a: real, b: real, c: real)
    ensures a * b * c == a * (b * c)
    ensures a * b * c == a * c * b
  {
  }

  lemma SquareOfProduct(a: real, b: real)
    ensures a * b * (a * b) == a * a * (b * b)
  {
    MulAssoc(a * b, a, b);
    MulAssoc(a, b, a);
    MulAssoc(a * a, b, b);
  }

  /** Squares are named: the solver rewrites a comparison of a literal a * a with zero. */
  function Sq(a: real): real { a * a }

  lemma ProductPositive(a: real, b: real, p: real)
    requires a > 0.0 && b > 0.0 && p == a * b
    ensures p > 0.0
  {
  }

  lemma ProductNonNegative(a: real, b: real, p: real)
    requires a >= 0.0 && b >= 0.0 && p == a * b
    ensures p >= 0.0
  {
  }

  /** A share q of a non-negative m lies between nothing and m. */
  lemma ShareBounded(q: real, m: real, h: real)
    requires 0.0 <= q <= 1.0 && m >= 0.0 && h == q * m
    ensures 0.0 <= h <= m
  {
    ProductNonNegative(q, m, h);
    var p := 1.0 - q;
    ProductNonNegative(p, m, p * m);
  }

  lemma SquarePositive(a: real)
    ensures Sq(a) >= 0.0
    ensures a != 0.0 ==> Sq(a) > 0.0
  {
    if a != 0.0 {
      var b := if a > 0.0 then a else -a;
      ProductPositive(b, b, Sq(b));
      SqNegate(a);
    }
  }

  lemma SqNegate(a: real)
    ensures Sq(-a) == Sq(a)
  {
  }

  lemma RootAtMost(c: real, b: real)
    requires Sq(c) <= Sq(b) && b >= 0.0
    ensures c <= b
  {
    if c > b {
      var d, e := c - b, c + b;
      assert d * e == Sq(c) - Sq(b);
      ProductPositive(d, e, d * e);
      assert false;
    }
  }

  lemma RootBound(c: real, b: real)
    requires Sq(c) <= Sq(b) && b >= 0.0
    ensures -b <= c <= b
  {
    RootAtMost(c, b);
    SqNegate(c);
    RootAtMost(-c, b);
  }

  lemma MulZero(a: real, b: real)
    requires b == 0.0
    ensures a * b == 0.0 && b * a == 0.0
  {
  }

  /** Linear interpolation, a at w = 0 and b at w = 1. */
  function Lerp(a: real, b: real, w: real): real { a + w * (b - a) }

  lemma Between(a: real, b: real, w: real)
    requires a <= b && 0.0 <= w <= 1.0
    ensures a <= Lerp(a, b, w) <= b
  {
    var d := b - a;
    ShareBounded(w, d, w * d);
  }

  /** A relative move: 0.01 is up one percent. */
  function Grow(v: real, amount: real): real { v * (1.0 + amount) }
}
