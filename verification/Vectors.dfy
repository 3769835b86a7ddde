/** P&L series as sequences of reals, with the pointwise and summing operations the risk code uses. */
module Vectors {
  import opened RealMath

  type Vec = seq<real>

  function Max(a: real, b: real): real { if a >= b then a else b }

  function Min(a: real, b: real): real { if a <= b then a else b }

  function Zeros(n: nat): (r: Vec)
    ensures |r| == n
  {
    seq(n, _ => 0.0)
  }

  function Add(x: Vec, y: Vec): (r: Vec)
    requires |x| == |y|
    ensures |r| == |x|
  {
    seq(|x|, i requires 0 <= i < |x| => x[i] + y[i])
  }

  function Sub(x: Vec, y: Vec): (r: Vec)
    requires |x| == |y|
    ensures |r| == |x|
  {
    seq(|x|, i requires 0 <= i < |x| => x[i] - y[i])
  }

  function Scale(c: real, x: Vec): (r: Vec)
    ensures |r| == |x|
  {
    seq(|x|, i requires 0 <= i < |x| => c * x[i])
  }

  function Negate(x: Vec): (r: Vec)
    ensures |r| == |x|
  {
    seq(|x|, i requires 0 <= i < |x| => -x[i])
  }

  ghost predicate Below(x: Vec, y: Vec) {
    |x| == |y| && forall i :: 0 <= i < |x| ==> x[i] <= y[i]
  }

  function Sum(x: Vec): real {
    if x == [] then 0.0 else x[0] + Sum(x[1..])
  }

  function Mean(x: Vec): real
    requires x != []
  {
    Sum(x) / |x| as real
  }

  function Dot(x: Vec, y: Vec): real
    requires |x| == |y|
  {
    if x == [] then 0.0 else x[0] * y[0] + Dot(x[1..], y[1..])
  }

  /** All vectors of xs have n entries. */
  ghost predicate Aligned(xs: seq<Vec>, n: nat) {
    forall k :: 0 <= k < |xs| ==> |xs[k]| == n
  }

  /** Python's sum(vectors, start=zeros(n)). */
  function Total(xs: seq<Vec>, n: nat): (r: Vec)
    requires Aligned(xs, n)
    ensures |r| == n
  {
    if xs == [] then Zeros(n) else Add(xs[0], Total(xs[1..], n))
  }

  lemma {:induction false} SumAppend(x: Vec, y: Vec)
    ensures Sum(x + y) == Sum(x) + Sum(y)
  {
    if x == [] {
      assert x + y == y;
    } else {
      assert (x + y)[1..] == x[1..] + y;
      SumAppend(x[1..], y);
    }
  }

  lemma {:induction false} SumAdd(x: Vec, y: Vec)
    requires |x| == |y|
    ensures Sum(Add(x, y)) == Sum(x) + Sum(y)
  {
    if x != [] {
      assert Add(x, y)[1..] == Add(x[1..], y[1..]);
      SumAdd(x[1..], y[1..]);
    }
  }

  lemma ScaleTail(c: real, x: Vec)
    requires x != []
    ensures Scale(c, x)[1..] == Scale(c, x[1..])
  {
    forall i | 0 <= i < |x| - 1
      ensures Scale(c, x)[1..][i] == Scale(c, x[1..])[i]
    {
      assert x[1..][i] == x[i + 1];
    }
  }

  lemma {:induction false} SumScale(c: real, x: Vec)
    ensures Sum(Scale(c, x)) == c * Sum(x)
  {
    if x != [] {
      ScaleTail(c, x);
      SumScale(c, x[1..]);
    }
  }

  lemma {:induction false} SumNegate(x: Vec)
    ensures Sum(Negate(x)) == -Sum(x)
  {
    if x != [] {
      assert Negate(x)[1..] == Negate(x[1..]);
      SumNegate(x[1..]);
    }
  }

  lemma {:induction false} SumZeros(n: nat)
    ensures Sum(Zeros(n)) == 0.0
  {
    if n > 0 {
      assert Zeros(n)[1..] == Zeros(n - 1);
      SumZeros(n - 1);
    }
  }

  lemma {:induction false} SumBelow(x: Vec, y: Vec)
    requires Below(x, y)
    ensures Sum(x) <= Sum(y)
  {
    if x != [] {
      assert Below(x[1..], y[1..]);
      SumBelow(x[1..], y[1..]);
    }
  }

  lemma {:induction false} SumAtLeast(x: Vec, c: real)
    requires forall i :: 0 <= i < |x| ==> x[i] >= c
    ensures Sum(x) >= c * |x| as real
  {
    if x != [] {
      SumAtLeast(x[1..], c);
      assert |x| as real == 1.0 + |x[1..]| as real;
      assert c * |x| as real == c + c * |x[1..]| as real;
    }
  }

  lemma MeanAtLeast(x: Vec, c: real)
    requires x != [] && forall i :: 0 <= i < |x| ==> x[i] >= c
    ensures Mean(x) >= c
  {
    SumAtLeast(x, c);
    var n, total := |x| as real, Sum(x);
    Quotient(total, n);
    MulCancel(c, total / n, n);
  }

  /** Removing the element at k from the sum. */
  lemma {:induction false} SumRemove(x: Vec, k: nat)
    requires k < |x|
    ensures Sum(x) == x[k] + Sum(x[..k] + x[k + 1..])
  {
    SumAppend(x[..k], x[k..]);
    SumAppend(x[..k], x[k + 1..]);
    assert x[..k] + x[k..] == x;
    assert x[k..][1..] == x[k + 1..];
  }

  lemma SplitAt<T>(x: seq<T>, k: nat)
    requires k < |x|
    ensures x == x[..k] + [x[k]] + x[k + 1..]
    ensures k == 0 ==> x[..k] + x[k + 1..] == x[1..] && x == [x[0]] + x[1..]
  {
  }

  lemma MultisetRemove<T>(x: seq<T>, k: nat)
    requires k < |x|
    ensures multiset(x[..k] + x[k + 1..]) == multiset(x) - multiset{x[k]}
    ensures k == 0 ==> x[..k] + x[k + 1..] == x[1..]
  {
    SplitAt(x, k);
  }

  lemma MultisetFind<T>(b: seq<T>, v: T) returns (k: nat)
    requires v in multiset(b)
    ensures k < |b| && b[k] == v
  {
    k :| k < |b| && b[k] == v;
  }

  /** Where the first element of a is in a permutation of it. */
  lemma PermutedHead<T>(a: seq<T>, b: seq<T>) returns (k: nat)
    requires a != [] && multiset(a) == multiset(b)
    ensures k < |b| && b[k] == a[0]
    ensures a == [a[0]] + a[1..] && b == b[..k] + [a[0]] + b[k + 1..]
    ensures multiset(a[1..]) == multiset(b[..k] + b[k + 1..])
  {
    assert a[0] in multiset(a);
    k := MultisetFind(b, a[0]);
    MultisetRemove(a, 0);
    MultisetRemove(b, k);
    SplitAt(a, 0);
    SplitAt(b, k);
  }

  /** Order does not matter to a sum. */
  lemma {:induction false} SumPermuted(x: Vec, y: Vec)
    requires multiset(x) == multiset(y)
    ensures Sum(x) == Sum(y)
    decreases |x|
  {
    if x == [] {
      assert |multiset(y)| == 0;
    } else {
      var k := PermutedHead(x, y);
      SumPermuted(x[1..], y[..k] + y[k + 1..]);
      SumRemove(y, k);
    }
  }

  lemma {:induction false} TotalAt(xs: seq<Vec>, n: nat, i: nat)
    requires Aligned(xs, n) && i < n
    ensures Total(xs, n)[i] == Sum(Column(xs, n, i))
  {
    if xs != [] {
      assert Column(xs, n, i)[1..] == Column(xs[1..], n, i);
      TotalAt(xs[1..], n, i);
    }
  }

  /** Entry i of every vector. */
  function Column(xs: seq<Vec>, n: nat, i: nat): (r: Vec)
    requires Aligned(xs, n) && i < n
    ensures |r| == |xs|
  {
    seq(|xs|, k requires 0 <= k < |xs| => xs[k][i])
  }

  lemma {:induction false} TotalAppend(xs: seq<Vec>, ys: seq<Vec>, n: nat)
    requires Aligned(xs, n) && Aligned(ys, n)
    ensures Aligned(xs + ys, n)
    ensures Total(xs + ys, n) == Add(Total(xs, n), Total(ys, n))
  {
    if xs == [] {
      assert xs + ys == ys;
      assert Add(Zeros(n), Total(ys, n)) == Total(ys, n);
    } else {
      assert (xs + ys)[1..] == xs[1..] + ys;
      TotalAppend(xs[1..], ys, n);
    }
  }

  lemma {:induction false} DotAddLeft(x: Vec, y: Vec, z: Vec)
    requires |x| == |y| == |z|
    ensures Dot(Add(x, y), z) == Dot(x, z) + Dot(y, z)
  {
    if x != [] {
      assert Add(x, y)[1..] == Add(x[1..], y[1..]);
      DotAddLeft(x[1..], y[1..], z[1..]);
      assert Add(x, y)[0] * z[0] == x[0] * z[0] + y[0] * z[0];
    }
  }

  lemma SquareOfSum(m: real, n: real)
    ensures Sq(m + n) == Sq(m) + 2.0 * (m * n) + Sq(n)
    ensures Sq(m - n) == Sq(m) - 2.0 * (m * n) + Sq(n)
  {
  }

  lemma ProductOfSums(a: real, b: real, c: real, d: real)
    ensures (a + b) * (c + d) == a * c + a * d + b * c + b * d
  {
  }

  lemma ScaledSquareBound(b: real, p: real, x: real, y: real, bbx: real)
    requires Sq(p) <= x * y && bbx == Sq(b) * x
    ensures Sq(b * p) <= bbx * y
  {
    SquarePositive(b);
    SquareOfProduct(b, p);
    MulMonotone(Sq(p), x * y, Sq(b));
    MulAssoc(Sq(b), x, y);
  }

  lemma DivideMixed(aay: real, bbx: real, abp: real, y: real, uu: real, uv: real, vv: real)
    requires y > 0.0 && uu == aay * y && uv == abp * y && vv <= bbx * y
    requires uu - 2.0 * uv + vv >= 0.0
    ensures 2.0 * abp <= aay + bbx
  {
    var e := aay + bbx;
    assert e * y == aay * y + bbx * y;
    assert 2.0 * abp * y == 2.0 * (abp * y);
    MulCancel(2.0 * abp, e, y);
  }

  /** 2 a b p <= a^2 y + b^2 x whenever p^2 <= x y. */
  lemma MixedTerm(a: real, b: real, x: real, p: real, y: real, abp: real, aay: real, bbx: real)
    requires x >= 0.0 && y > 0.0 && Sq(p) <= x * y
    requires abp == a * b * p && aay == Sq(a) * y && bbx == Sq(b) * x
    ensures 2.0 * abp <= aay + bbx
  {
    var u, v := a * y, b * p;
    SquarePositive(u - v);
    SquareOfSum(u, v);
    MixedProduct(a, b, p, y, abp);
    MixedSquare(a, y, aay);
    ScaledSquareBound(b, p, x, y, bbx);
    DivideMixed(aay, bbx, abp, y, Sq(u), u * v, Sq(v));
  }

  lemma MixedTermAtZero(a: real, b: real, x: real, p: real, y: real, abp: real, aay: real, bbx: real)
    requires x >= 0.0 && y == 0.0 && Sq(p) <= x * y
    requires abp == a * b * p && aay == Sq(a) * y && bbx == Sq(b) * x
    ensures 2.0 * abp <= aay + bbx
  {
    SquarePositive(p);
    SquarePositive(b);
    MulZero(x, y);
    MulZero(a * b, p);
    MulZero(Sq(a), y);
    ProductNonNegative(Sq(b), x, bbx);
  }

  lemma MixedProduct(a: real, b: real, p: real, y: real, abp: real)
    requires abp == a * b * p
    ensures a * y * (b * p) == abp * y
  {
    MulAssoc(a * y, b, p);
    MulAssoc(a, y, b);
    MulAssoc(a * b, y, p);
  }

  lemma MixedSquare(a: real, y: real, aay: real)
    requires aay == Sq(a) * y
    ensures Sq(a * y) == aay * y
  {
    SquareOfProduct(a, y);
    MulAssoc(Sq(a), y, y);
  }

  lemma MixedBound(a: real, b: real, x: real, p: real, y: real, abp: real, aay: real, bbx: real)
    requires Dominated(x, p, y)
    requires abp == a * b * p && aay == Sq(a) * y && bbx == Sq(b) * x
    ensures 2.0 * abp <= aay + bbx
  {
    if y > 0.0 {
      MixedTerm(a, b, x, p, y, abp, aay, bbx);
    } else {
      MixedTermAtZero(a, b, x, p, y, abp, aay, bbx);
    }
  }

  ghost predicate Dominated(xx: real, xy: real, yy: real) {
    xx >= 0.0 && yy >= 0.0 && Sq(xy) <= xx * yy
  }

  lemma DominatedStep(a: real, b: real, x: real, p: real, y: real, ab: real)
    requires Dominated(x, p, y) && ab == a * b
    ensures Dominated(Sq(a) + x, ab + p, Sq(b) + y)
  {
    SquarePositive(a);
    SquarePositive(b);
    SquareOfSum(ab, p);
    ProductOfSums(Sq(a), x, Sq(b), y);
    assert Sq(ab) == Sq(a) * Sq(b) by {
      SquareOfProduct(a, b);
    }
    MixedBound(a, b, x, p, y, ab * p, Sq(a) * y, Sq(b) * x);
    assert x * Sq(b) == Sq(b) * x;
  }

  lemma DominatedZero()
    ensures Dominated(0.0, 0.0, 0.0)
  {
  }

  /** Cauchy-Schwarz. */
  lemma {:induction false} CauchySchwarz(x: Vec, y: Vec)
    requires |x| == |y|
    ensures Dominated(Dot(x, x), Dot(x, y), Dot(y, y))
  {
    if x == [] {
      DominatedZero();
    } else {
      CauchySchwarz(x[1..], y[1..]);
      DominatedStep(x[0], y[0], Dot(x[1..], x[1..]), Dot(x[1..], y[1..]), Dot(y[1..], y[1..]), x[0] * y[0]);
      assert Dot(x, x) == Sq(x[0]) + Dot(x[1..], x[1..]);
      assert Dot(y, y) == Sq(y[0]) + Dot(y[1..], y[1..]);
    }
  }
}
