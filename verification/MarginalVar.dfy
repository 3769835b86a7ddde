/**
 * Euler allocation of parametric VaR (risk/marginal_var.py).
 *
 * A standard deviation enters as a number sigma with IsStd(sigma, series): the
 * non-negative root of the sample variance.
 */
module MarginalVar {
  import opened RealMath
  import opened Vectors

  function Deviations(x: Vec): (r: Vec)
    requires x != []
    ensures |r| == |x|
  {
    var m := Mean(x);
    seq(|x|, i requires 0 <= i < |x| => x[i] - m)
  }

  /** Sample covariance with one degree of freedom removed. */
  function Cov(x: Vec, y: Vec): real
    requires |x| == |y| >= 2
  {
    Dot(Deviations(x), Deviations(y)) / (|x| - 1) as real
  }

  function Variance(x: Vec): real
    requires |x| >= 2
  {
    Cov(x, x)
  }

  ghost predicate IsStd(sigma: real, x: Vec)
    requires |x| >= 2
  {
    sigma >= 0.0 && Sq(sigma) == Variance(x)
  }

  // ----- the covariance without deviations -----

  function Less(x: Vec, a: real): (r: Vec)
    ensures |r| == |x|
  {
    seq(|x|, i requires 0 <= i < |x| => x[i] - a)
  }

  /** What products of deviations come to, from sums: of products, of the one, of the other, of n. */
  function Expanded(xy: real, sx: real, sy: real, n: real, a: real, b: real): real {
    xy - b * sx - a * sy + n * (a * b)
  }

  lemma OneMore(u: real, v: real, xy: real, sx: real, sy: real, n: real, a: real, b: real, p: real, q: real)
    requires p == (u - a) * (v - b) && q == u * v
    ensures p + Expanded(xy, sx, sy, n, a, b) == Expanded(q + xy, u + sx, v + sy, n + 1.0, a, b)
  {
    var ab := a * b;
    assert p == q - b * u - a * v + ab;
    assert (n + 1.0) * ab == n * ab + ab;
    assert b * (u + sx) == b * u + b * sx && a * (v + sy) == a * v + a * sy;
  }

  lemma DotHead(x: Vec, y: Vec) returns (q: real)
    requires |x| == |y| > 0
    ensures q == x[0] * y[0] && Dot(x, y) == q + Dot(x[1..], y[1..])
  {
    q := x[0] * y[0];
  }

  lemma LessTail(x: Vec, a: real)
    requires x != []
    ensures Less(x, a)[0] == x[0] - a && Less(x, a)[1..] == Less(x[1..], a)
    ensures Sum(x) == x[0] + Sum(x[1..]) && |x| as real == |x[1..]| as real + 1.0
  {
  }

  lemma LessEmpty(x: Vec, y: Vec, a: real, b: real)
    requires x == [] && y == []
    ensures Dot(Less(x, a), Less(y, b)) == Expanded(Dot(x, y), Sum(x), Sum(y), |x| as real, a, b)
  {
  }

  lemma {:induction false} LessDot(x: Vec, y: Vec, a: real, b: real)
    requires |x| == |y|
    ensures Dot(Less(x, a), Less(y, b)) == Expanded(Dot(x, y), Sum(x), Sum(y), |x| as real, a, b)
  {
    hide *;
    if x == [] {
      LessEmpty(x, y, a, b);
    } else {
      LessDot(x[1..], y[1..], a, b);
      LessTail(x, a);
      LessTail(y, b);
      var q := DotHead(x, y);
      var p := DotHead(Less(x, a), Less(y, b));
      OneMore(x[0], y[0], Dot(x[1..], y[1..]), Sum(x[1..]), Sum(y[1..]), |x[1..]| as real, a, b, p, q);
    }
  }

  lemma MeansCancel(xy: real, sx: real, sy: real, n: real, a: real, b: real)
    requires n > 0.0 && a * n == sx && b * n == sy
    ensures Expanded(xy, sx, sy, n, a, b) == xy - sx * b
  {
    assert a * sy == a * b * n;
    assert b * sx == b * a * n;
  }

  lemma CovOf(x: Vec, y: Vec)
    requires |x| == |y| >= 2
    ensures (|x| - 1) as real * Cov(x, y) == Dot(Less(x, Mean(x)), Less(y, Mean(y)))
  {
    assert Deviations(x) == Less(x, Mean(x)) && Deviations(y) == Less(y, Mean(y));
    Quotient(Dot(Deviations(x), Deviations(y)), (|x| - 1) as real);
  }

  lemma MeanOf(x: Vec)
    requires x != []
    ensures Mean(x) * |x| as real == Sum(x)
  {
    Quotient(Sum(x), |x| as real);
  }

  /** n - 1 times the covariance is the sum of products less the product of the sum of one and the mean of the other. */
  lemma CovIs(x: Vec, y: Vec)
    requires |x| == |y| >= 2
    ensures (|x| - 1) as real * Cov(x, y) == Dot(x, y) - Sum(x) * Mean(y)
  {
    hide *;
    CovOf(x, y);
    MeanOf(x);
    MeanOf(y);
    LessDot(x, y, Mean(x), Mean(y));
    MeansCancel(Dot(x, y), Sum(x), Sum(y), |x| as real, Mean(x), Mean(y));
  }

  function ParametricComponentVar(position: Vec, portfolio: Vec, portfolioVar: real): real
    requires |position| == |portfolio|
  {
    if portfolioVar <= 0.0 || |portfolio| < 2 then 0.0
    else
      var variance := Variance(portfolio);
      if variance <= 0.0 then 0.0 else portfolioVar * Cov(position, portfolio) / variance
  }

  /** sigma is the portfolio's sample deviation; it is not looked at for a series shorter than two. */
  function ParametricMarginalVar(position: Vec, portfolio: Vec, z: real, sigma: real): real
    requires |position| == |portfolio|
    requires |portfolio| >= 2 ==> IsStd(sigma, portfolio)
  {
    if |portfolio| < 2 || sigma <= 0.0 then 0.0 else z * Cov(position, portfolio) / sigma
  }

  /** The value-at-risk both allocations are of. */
  function ParametricVar(z: real, sigma: real): real {
    Max(0.0, z * sigma)
  }

  function ComponentVars(positions: seq<Vec>, n: nat, portfolioVar: real): (r: Vec)
    requires Aligned(positions, n)
    ensures |r| == |positions|
  {
    seq(|positions|, k requires 0 <= k < |positions| =>
      ParametricComponentVar(positions[k], Total(positions, n), portfolioVar))
  }

  /** One marginal per position against the summed book; the source's dict is the index k here. */
  function MarginalVars(positions: seq<Vec>, n: nat, z: real, sigma: real): (r: Vec)
    requires Aligned(positions, n)
    requires n >= 2 ==> IsStd(sigma, Total(positions, n))
    ensures |r| == |positions|
  {
    seq(|positions|, k requires 0 <= k < |positions| =>
      ParametricMarginalVar(positions[k], Total(positions, n), z, sigma))
  }

  // ----- covariance is bilinear and obeys Cauchy-Schwarz -----

  lemma MeanAdd(x: Vec, y: Vec)
    requires |x| == |y| >= 1
    ensures Mean(Add(x, y)) == Mean(x) + Mean(y)
  {
    SumAdd(x, y);
  }

  lemma DeviationsAdd(x: Vec, y: Vec)
    requires |x| == |y| >= 1
    ensures Deviations(Add(x, y)) == Add(Deviations(x), Deviations(y))
  {
    MeanAdd(x, y);
  }

  lemma DeviationsZeros(n: nat)
    requires n >= 1
    ensures Deviations(Zeros(n)) == Zeros(n)
  {
    SumZeros(n);
  }

  lemma {:induction false} DotZeros(n: nat, y: Vec)
    requires |y| == n
    ensures Dot(Zeros(n), y) == 0.0
  {
    if n > 0 {
      assert Zeros(n)[1..] == Zeros(n - 1);
      DotZeros(n - 1, y[1..]);
    }
  }

  function Covs(positions: seq<Vec>, y: Vec): (r: Vec)
    requires Aligned(positions, |y|) && |y| >= 2
    ensures |r| == |positions|
  {
    seq(|positions|, k requires 0 <= k < |positions| => Cov(positions[k], y))
  }

  /** Covariances of the positions sum to the covariance of their total. */
  lemma {:induction false} CovTotal(positions: seq<Vec>, y: Vec)
    requires Aligned(positions, |y|) && |y| >= 2
    ensures Sum(Covs(positions, y)) == Cov(Total(positions, |y|), y)
  {
    var n := |y|;
    if positions == [] {
      DeviationsZeros(n);
      DotZeros(n, Deviations(y));
    } else {
      CovTotal(positions[1..], y);
      assert Covs(positions, y)[1..] == Covs(positions[1..], y);
      CovAddLeft(positions[0], Total(positions[1..], n), y);
    }
  }

  lemma CovAddLeft(x: Vec, x': Vec, y: Vec)
    requires |x| == |x'| == |y| >= 2
    ensures Cov(Add(x, x'), y) == Cov(x, y) + Cov(x', y)
  {
    DeviationsAdd(x, x');
    DotAddLeft(Deviations(x), Deviations(x'), Deviations(y));
    QuotientAdds(Dot(Deviations(x), Deviations(y)), Dot(Deviations(x'), Deviations(y)),
                 Dot(Deviations(Add(x, x')), Deviations(y)), (|x| - 1) as real);
  }

  lemma CovCauchySchwarz(x: Vec, y: Vec)
    requires |x| == |y| >= 2
    ensures Cov(x, y) * Cov(x, y) <= Variance(x) * Variance(y)
  {
    var dx, dy := Deviations(x), Deviations(y);
    CauchySchwarz(dx, dy);
    DivideSquares(Dot(dx, dy), Dot(dx, dx), Dot(dy, dy), (|x| - 1) as real);
  }

  lemma DivideSquares(b: real, a: real, c: real, m: real)
    requires m > 0.0 && b * b <= a * c
    ensures b / m * (b / m) <= a / m * (c / m)
  {
    Quotient(b, m);
    Quotient(a, m);
    Quotient(c, m);
    ScaledSquares(b / m, a / m, c / m, m, b, a, c);
  }

  lemma ScaledSquares(p: real, q: real, r: real, m: real, b: real, a: real, c: real)
    requires m > 0.0 && p * m == b && q * m == a && r * m == c && b * b <= a * c
    ensures p * p <= q * r
  {
    var mm, pp, qr := Sq(m), p * p, q * r;
    SquarePositive(m);
    SquareOfProduct(p, m);
    MulAssoc(q * m, r, m);
    MulAssoc(q, m, r);
    MulAssoc(q * r, m, m);
    assert b * b == pp * mm;
    assert a * c == qr * mm;
    MulCancel(pp, qr, mm);
  }

  // ----- the allocation -----

  lemma ComponentAt(c: real, portfolioVar: real, variance: real)
    ensures (if portfolioVar <= 0.0 || variance <= 0.0 then 0.0 else portfolioVar * c / variance)
         == ComponentRate(portfolioVar, variance) * c
  {
    var rate := ComponentRate(portfolioVar, variance);
    if portfolioVar <= 0.0 || variance <= 0.0 {
      MulZero(c, rate);
    } else {
      Quotient(portfolioVar, variance);
      MulAssoc(rate, variance, c);
      QuotientIs(portfolioVar * c, variance, rate * c);
    }
  }

  /** Each component is the same multiple of the position's covariance with the book. */
  lemma ComponentsScaleCovs(positions: seq<Vec>, n: nat, portfolioVar: real)
    requires Aligned(positions, n) && n >= 2
    ensures ComponentVars(positions, n, portfolioVar)
         == Scale(ComponentRate(portfolioVar, Variance(Total(positions, n))), Covs(positions, Total(positions, n)))
  {
    var total := Total(positions, n);
    var rate, covs := ComponentRate(portfolioVar, Variance(total)), Covs(positions, total);
    forall k | 0 <= k < |positions|
      ensures ComponentVars(positions, n, portfolioVar)[k] == Scale(rate, covs)[k]
    {
      ComponentAt(covs[k], portfolioVar, Variance(total));
    }
  }

  function ComponentRate(portfolioVar: real, variance: real): real {
    if portfolioVar <= 0.0 || variance <= 0.0 then 0.0 else portfolioVar / variance
  }

  /** Components add up to the value allocated exactly when it is zero, or positive over a book that varies. */
  lemma ComponentsOfAnyVar(positions: seq<Vec>, n: nat, portfolioVar: real)
    requires Aligned(positions, n) && n >= 2
    ensures Sum(ComponentVars(positions, n, portfolioVar)) == portfolioVar
      <==> (portfolioVar == 0.0 || (portfolioVar > 0.0 && Variance(Total(positions, n)) > 0.0))
  {
    var total := Total(positions, n);
    var rate := ComponentRate(portfolioVar, Variance(total));
    ComponentsScaleCovs(positions, n, portfolioVar);
    SumScale(rate, Covs(positions, total));
    CovTotal(positions, total);
    if portfolioVar > 0.0 && Variance(total) > 0.0 {
      Quotient(portfolioVar, Variance(total));
    } else {
      assert rate * Variance(total) == 0.0;
    }
  }

  /** Components of the engine's own VaR always add up to it. */
  lemma ComponentsSumToVar(positions: seq<Vec>, n: nat, z: real, sigma: real)
    requires Aligned(positions, n) && n >= 2
    requires IsStd(sigma, Total(positions, n))
    ensures Sum(ComponentVars(positions, n, ParametricVar(z, sigma))) == ParametricVar(z, sigma)
  {
    ComponentsOfAnyVar(positions, n, ParametricVar(z, sigma));
    SquarePositive(sigma);
    if sigma == 0.0 {
      assert z * sigma == 0.0;
    }
  }

  /** At unit holdings the component is the marginal exactly when VaR is z sigma, or the position is uncorrelated. */
  lemma ComponentIsMarginal(position: Vec, portfolio: Vec, z: real, sigma: real)
    requires |position| == |portfolio| >= 2
    requires IsStd(sigma, portfolio)
    ensures ParametricComponentVar(position, portfolio, ParametricVar(z, sigma))
         == ParametricMarginalVar(position, portfolio, z, sigma)
      <==> (ParametricVar(z, sigma) == z * sigma || Cov(position, portfolio) == 0.0)
  {
    var c, value := Cov(position, portfolio), z * sigma;
    SquarePositive(sigma);
    if sigma == 0.0 {
      MulZero(z, sigma);
    } else if z > 0.0 {
      ProductPositive(z, sigma, value);
      CancelSigma(z, c, sigma);
    } else if z == 0.0 {
      MulZero(sigma, z);
      MulZero(c, z);
    } else {
      ProductPositive(-z, sigma, -value);
      assert ParametricVar(z, sigma) == 0.0;
      Quotient(z * c, sigma);
      if c == 0.0 {
        MulZero(z, c);
      } else if z * c / sigma == 0.0 {
        assert false;
      }
    }
  }

  lemma CancelSigma(z: real, c: real, s: real)
    requires s > 0.0
    ensures z * s * c / (s * s) == z * c / s
  {
    var r, ss, zsc := z * c / s, Sq(s), z * s * c;
    SquarePositive(s);
    Quotient(z * c, s);
    MulAssoc(r, s, s);
    MulAssoc(z, s, c);
    MulAssoc(z, c, s);
    assert zsc == r * ss;
    QuotientIs(zsc, ss, r);
  }

  /** A marginal never exceeds what the position would cost on its own, in either direction. */
  lemma MarginalBounded(position: Vec, portfolio: Vec, z: real, sigma: real, own: real)
    requires |position| == |portfolio| >= 2
    requires IsStd(sigma, portfolio) && IsStd(own, position)
    requires z >= 0.0
    ensures -(z * own) <= ParametricMarginalVar(position, portfolio, z, sigma) <= z * own
  {
    var m := ParametricMarginalVar(position, portfolio, z, sigma);
    if sigma > 0.0 {
      var c := Cov(position, portfolio);
      CovCauchySchwarz(position, portfolio);
      BoundFromSquares(c, own, sigma, Variance(position), Variance(portfolio));
      RatioBound(z, c, own, sigma, m);
    } else {
      MulMonotone(0.0, z, own);
    }
  }

  lemma BoundFromSquares(c: real, own: real, s: real, ownSq: real, sSq: real)
    requires own >= 0.0 && s >= 0.0 && Sq(own) == ownSq && Sq(s) == sSq
    requires c * c <= ownSq * sSq
    ensures -(own * s) <= c <= own * s
  {
    SquareOfProduct(own, s);
    assert Sq(c) <= Sq(own * s);
    MulMonotone(0.0, own, s);
    RootBound(c, own * s);
  }

  lemma RatioBound(z: real, c: real, own: real, s: real, m: real)
    requires z >= 0.0 && s > 0.0 && m == z * c / s
    requires -(own * s) <= c <= own * s
    ensures -(z * own) <= m <= z * own
  {
    var bound, scaled, cost := own * s, z * c, z * own;
    Quotient(scaled, s);
    ScaleInterval(c, bound, z);
    MulAssoc(z, own, s);
    assert -(cost * s) <= m * s <= cost * s;
    MulCancel(m, cost, s);
    assert -cost * s == -(cost * s);
    MulCancel(-cost, m, s);
  }

  lemma ScaleInterval(c: real, b: real, z: real)
    requires z >= 0.0 && -b <= c <= b
    ensures -(z * b) <= z * c <= z * b
  {
    assert z * (b - c) >= 0.0;
    assert z * (c + b) >= 0.0;
  }

  /** Diversification: the book's deviation is at most the sum of the standalone ones. */
  lemma DiversificationBound(positions: seq<Vec>, n: nat, sigma: real, owns: Vec)
    requires Aligned(positions, n) && n >= 2
    requires IsStd(sigma, Total(positions, n))
    requires |owns| == |positions|
    requires forall k :: 0 <= k < |positions| ==> IsStd(owns[k], positions[k])
    ensures sigma <= Sum(owns)
  {
    var marginals := MarginalVars(positions, n, 1.0, sigma);
    forall k | 0 <= k < |positions|
      ensures marginals[k] <= owns[k]
    {
      MarginalBounded(positions[k], Total(positions, n), 1.0, sigma, owns[k]);
    }
    SumBelow(marginals, owns);
    MarginalsSumToVar(positions, n, 1.0, sigma);
  }

  /** Marginals of a non-negative z are components of the VaR. */
  lemma UpperMarginalsSum(positions: seq<Vec>, n: nat, z: real, sigma: real)
    requires Aligned(positions, n) && n >= 2
    requires IsStd(sigma, Total(positions, n)) && z >= 0.0
    ensures Sum(MarginalVars(positions, n, z, sigma)) == z * sigma
  {
    var value := ParametricVar(z, sigma);
    MulMonotone(0.0, z, sigma);
    forall k | 0 <= k < |positions|
      ensures MarginalVars(positions, n, z, sigma)[k] == ComponentVars(positions, n, value)[k]
    {
      ComponentIsMarginal(positions[k], Total(positions, n), z, sigma);
    }
    assert MarginalVars(positions, n, z, sigma) == ComponentVars(positions, n, value);
    ComponentsSumToVar(positions, n, z, sigma);
  }

  lemma MarginalNegates(position: Vec, portfolio: Vec, z: real, sigma: real)
    requires |position| == |portfolio| >= 2 && IsStd(sigma, portfolio)
    ensures ParametricMarginalVar(position, portfolio, -z, sigma) == -ParametricMarginalVar(position, portfolio, z, sigma)
  {
    if sigma > 0.0 {
      RatioNegates(z, Cov(position, portfolio), sigma);
    }
  }

  lemma RatioNegates(z: real, c: real, s: real)
    requires s > 0.0
    ensures -z * c / s == -(z * c / s)
  {
    var q := z * c / s;
    Quotient(z * c, s);
    QuotientIs(-z * c, s, -q);
  }

  /** The marginals against the summed book add up to z sigma, for a z of either sign. */
  lemma MarginalsSumToVar(positions: seq<Vec>, n: nat, z: real, sigma: real)
    requires Aligned(positions, n) && n >= 2
    requires IsStd(sigma, Total(positions, n))
    ensures Sum(MarginalVars(positions, n, z, sigma)) == z * sigma
  {
    if z >= 0.0 {
      UpperMarginalsSum(positions, n, z, sigma);
    } else {
      UpperMarginalsSum(positions, n, -z, sigma);
      forall k | 0 <= k < |positions|
        ensures MarginalVars(positions, n, -z, sigma)[k] == -MarginalVars(positions, n, z, sigma)[k]
      {
        MarginalNegates(positions[k], Total(positions, n), z, sigma);
      }
      assert MarginalVars(positions, n, -z, sigma) == Negate(MarginalVars(positions, n, z, sigma));
      SumNegate(MarginalVars(positions, n, z, sigma));
    }
  }
}
