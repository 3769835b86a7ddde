/**
 * What a marginal is: the slope of parametric VaR in the weight of its position (risk/marginal_var.py).
 *
 * No derivative is taken. The change of z sigma stays between the marginal's line and that line plus a term of second order
 * in the move of the weight, which only one line through the present value can do.
 */
module MarginalSlope {
  import opened RealMath
  import opened Vectors
  import opened MarginalVar

  // ----- covariance under a change of weight -----

  lemma {:induction false} DotScaleLeft(c: real, x: Vec, y: Vec)
    requires |x| == |y|
    ensures Dot(Scale(c, x), y) == c * Dot(x, y)
  {
    if x != [] {
      ScaleTail(c, x);
      DotScaleLeft(c, x[1..], y[1..]);
      assert Dot(Scale(c, x), y) == Scale(c, x)[0] * y[0] + Dot(Scale(c, x)[1..], y[1..]);
      ScaledTerm(c, x[0], y[0], Dot(x[1..], y[1..]));
    }
  }

  lemma ScaledTerm(c: real, x: real, y: real, rest: real)
    ensures c * x * y + c * rest == c * (x * y + rest)
  {
    MulAssoc(c, x, y);
  }

  lemma {:induction false} DotSymmetric(x: Vec, y: Vec)
    requires |x| == |y|
    ensures Dot(x, y) == Dot(y, x)
  {
    if x != [] {
      DotSymmetric(x[1..], y[1..]);
    }
  }

  lemma ScaledQuotient(c: real, d: real, m: real, p: real)
    requires m != 0.0 && p == c * d
    ensures p / m == c * (d / m)
  {
    var q := d / m;
    Quotient(d, m);
    MulAssoc(c, q, m);
    MulSame(c, q * m, d);
    QuotientIs(p, m, c * q);
  }

  lemma MeanScale(c: real, x: Vec)
    requires x != []
    ensures Mean(Scale(c, x)) == c * Mean(x)
  {
    SumScale(c, x);
    ScaledQuotient(c, Sum(x), |x| as real, Sum(Scale(c, x)));
  }

  lemma DeviationsScale(c: real, x: Vec)
    requires x != []
    ensures Deviations(Scale(c, x)) == Scale(c, Deviations(x))
  {
    MeanScale(c, x);
    forall i | 0 <= i < |x|
      ensures Deviations(Scale(c, x))[i] == Scale(c, Deviations(x))[i]
    {
      assert c * (x[i] - Mean(x)) == c * x[i] - c * Mean(x);
    }
  }

  lemma CovScaleLeft(c: real, x: Vec, y: Vec)
    requires |x| == |y| >= 2
    ensures Cov(Scale(c, x), y) == c * Cov(x, y)
  {
    DeviationsScale(c, x);
    DotScaleLeft(c, Deviations(x), Deviations(y));
    ScaledQuotient(c, Dot(Deviations(x), Deviations(y)), (|x| - 1) as real, Dot(Deviations(Scale(c, x)), Deviations(y)));
  }

  lemma CovSymmetric(x: Vec, y: Vec)
    requires |x| == |y| >= 2
    ensures Cov(x, y) == Cov(y, x)
  {
    DotSymmetric(Deviations(x), Deviations(y));
  }

  /** The book with the weight of the position moved by w. */
  function Moved(portfolio: Vec, position: Vec, w: real): (r: Vec)
    requires |position| == |portfolio|
    ensures |r| == |portfolio|
  {
    Add(portfolio, Scale(w, position))
  }

  /** Covariance with the moved book. */
  lemma CovWithMoved(x: Vec, portfolio: Vec, position: Vec, w: real)
    requires |x| == |position| == |portfolio| >= 2
    ensures Cov(x, Moved(portfolio, position, w)) == Cov(x, portfolio) + w * Cov(x, position)
  {
    CovSymmetric(x, Moved(portfolio, position, w));
    CovAddLeft(portfolio, Scale(w, position), x);
    CovScaleLeft(w, position, x);
    CovSymmetric(portfolio, x);
    CovSymmetric(position, x);
  }

  /** The variance of the moved book is a square in the move of the weight. */
  lemma VarianceMoves(portfolio: Vec, position: Vec, w: real, c: real, wc: real, wv: real, wwv: real)
    requires |position| == |portfolio| >= 2
    requires c == Cov(position, portfolio) && wc == w * c && wv == w * Variance(position) && wwv == w * wv
    ensures Variance(Moved(portfolio, position, w)) == Variance(portfolio) + 2.0 * wc + wwv
  {
    var moved := Moved(portfolio, position, w);
    CovAddLeft(portfolio, Scale(w, position), moved);
    CovScaleLeft(w, position, moved);
    CovWithMoved(portfolio, portfolio, position, w);
    CovSymmetric(portfolio, position);
    CovWithMoved(position, portfolio, position, w);
    assert w * (c + wv) == wc + wwv;
    MulSame(w, Cov(position, moved), c + wv);
  }

  // ----- the root of a moved square -----

  lemma SquareOfSum(a: real, b: real, ab: real)
    requires ab == a * b
    ensures Sq(a + b) == Sq(a) + 2.0 * ab + Sq(b)
  {
  }

  /** The slope squared is at most the position's variance. */
  lemma SlopeBounded(c: real, s: real, m: real, v: real)
    requires s > 0.0 && m * s == c && c * c <= v * Sq(s)
    ensures Sq(m) <= v
  {
    SquarePositive(s);
    SquareOfProduct(m, s);
    MulCancel(Sq(m), v, Sq(s));
  }

  lemma SlopeProducts(w: real, m: real, s: real, c: real, wc: real, wm: real)
    requires m * s == c && wc == w * c && wm == w * m
    ensures s * wm == wc
  {
    MulAssoc(w, m, s);
    MulSame(w, m * s, c);
  }

  /** From below: the deviation of the moved book is at least its line. */
  lemma RootAboveLine(s: real, t: real, w: real, m: real, v: real, c: real, wc: real, wm: real, wv: real, wwv: real)
    requires s > 0.0 && t >= 0.0 && m * s == c && c * c <= v * Sq(s)
    requires wc == w * c && wm == w * m && wv == w * v && wwv == w * wv && Sq(t) == Sq(s) + 2.0 * wc + wwv
    ensures s + wm <= t
  {
    SlopeBounded(c, s, m, v);
    SlopeProducts(w, m, s, c, wc, wm);
    SquareOfSum(s, wm, wc);
    SquareOfProduct(w, m);
    SquarePositive(w);
    MulMonotone(Sq(m), v, Sq(w));
    MulAssoc(w, w, v);
    RootAtMost(s + wm, t);
  }

  /** From above: at most the line and a term of second order. */
  lemma RootBelowCurve(s: real, t: real, wc: real, wm: real, wwv: real, e: real)
    requires s > 0.0 && t >= 0.0 && s * wm == wc && s * e == wwv / 2.0 && Sq(t) == Sq(s) + 2.0 * wc + wwv
    ensures t <= s + wm + e
  {
    var a := wm + e;
    assert s * a == wc + wwv / 2.0;
    SquareOfSum(s, a, wc + wwv / 2.0);
    SquarePositive(a);
    SquarePositive(t);
    HalfSum(s, a, Sq(t));
    RootAtMost(t, s + a);
  }

  lemma HalfSum(s: real, a: real, tt: real)
    requires s > 0.0 && tt >= 0.0 && Sq(s) + 2.0 * (s * a) == tt
    ensures s + a >= 0.0
  {
    SquarePositive(s);
    assert s * (s + a) == Sq(s) + s * a;
    if s + a < 0.0 {
      ProductPositive(s, -(s + a), s * -(s + a));
    }
  }

  // ----- the marginal -----

  /** The deviation between its line and the line with the term of second order. */
  lemma RootBetween(s: real, t: real, w: real, m: real, v: real, c: real, wc: real, wm: real, wv: real, wwv: real, e: real)
    requires s > 0.0 && t >= 0.0 && m * s == c && c * c <= v * Sq(s) && e * (2.0 * s) == wwv
    requires wc == w * c && wm == w * m && wv == w * v && wwv == w * wv && Sq(t) == Sq(s) + 2.0 * wc + wwv
    ensures wm <= t - s <= wm + e
  {
    RootAboveLine(s, t, w, m, v, c, wc, wm, wv, wwv);
    SlopeProducts(w, m, s, c, wc, wm);
    HalfOf(s, e, wwv);
    RootBelowCurve(s, t, wc, wm, wwv, e);
  }

  lemma DeviationMoves(position: Vec, portfolio: Vec, w: real, sigma: real, moved: real, m: real, wm: real, e: real, wv: real, wwv: real)
    requires |position| == |portfolio| >= 2 && sigma > 0.0
    requires IsStd(sigma, portfolio) && IsStd(moved, Moved(portfolio, position, w))
    requires m == Cov(position, portfolio) / sigma && wm == w * m
    requires wv == w * Variance(position) && wwv == w * wv && e == wwv / (2.0 * sigma)
    ensures wm <= moved - sigma <= wm + e
  {
    var c, v := Cov(position, portfolio), Variance(position);
    var wc := w * c;
    CovCauchySchwarz(position, portfolio);
    VarianceMoves(portfolio, position, w, c, wc, wv, wwv);
    Quotient(c, sigma);
    Quotient(wwv, 2.0 * sigma);
    RootBetween(sigma, moved, w, m, v, c, wc, wm, wv, wwv, e);
  }

  /**
   * Moving the weight of a position by w changes z sigma by at least w times its marginal, and by at most that and
   * z w w / (2 sigma) times the position's own variance.
   */
  lemma MarginalIsSlope(position: Vec, portfolio: Vec, w: real, z: real, sigma: real, moved: real, wv: real, wwv: real)
    requires |position| == |portfolio| >= 2 && z >= 0.0 && sigma > 0.0
    requires IsStd(sigma, portfolio) && IsStd(moved, Moved(portfolio, position, w))
    requires wv == w * Variance(position) && wwv == w * wv
    ensures var line := w * ParametricMarginalVar(position, portfolio, z, sigma);
      line <= z * moved - z * sigma <= line + z * (wwv / (2.0 * sigma))
  {
    var m, e := Cov(position, portfolio) / sigma, wwv / (2.0 * sigma);
    var wm := w * m;
    DeviationMoves(position, portfolio, w, sigma, moved, m, wm, e, wv, wwv);
    MarginalScales(position, portfolio, z, sigma, m);
    TimesLine(z, w, m, sigma, moved, e, wm);
    MulSame(w, ParametricMarginalVar(position, portfolio, z, sigma), z * m);
  }

  lemma HalfOf(s: real, e: real, p: real)
    requires e * (2.0 * s) == p
    ensures s * e == p / 2.0
  {
  }

  lemma MarginalScales(position: Vec, portfolio: Vec, z: real, sigma: real, m: real)
    requires |position| == |portfolio| >= 2 && sigma > 0.0 && IsStd(sigma, portfolio) && m == Cov(position, portfolio) / sigma
    ensures ParametricMarginalVar(position, portfolio, z, sigma) == z * m
  {
    ScaledQuotient(z, Cov(position, portfolio), sigma, z * Cov(position, portfolio));
  }

  lemma TimesLine(z: real, w: real, m: real, s: real, t: real, e: real, wm: real)
    requires z >= 0.0 && wm == w * m && wm <= t - s <= wm + e
    ensures w * (z * m) <= z * t - z * s <= w * (z * m) + z * e
  {
    MulMonotone(wm, t - s, z);
    MulMonotone(t - s, wm + e, z);
    MulAssoc(z, w, m);
    MulAssoc(w, z, m);
    assert z * (t - s) == z * t - z * s;
    assert z * (wm + e) == z * wm + z * e;
    assert w * (z * m) == z * wm;
  }
}
