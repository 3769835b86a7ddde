/** Sorted samples, order statistics and the linearly interpolated quantile of numpy.quantile. */
module Quantiles {
  import opened RealMath
  import opened Vectors

  ghost predicate Ordered(s: Vec) {
    forall i, j :: 0 <= i <= j < |s| ==> s[i] <= s[j]
  }

  function Insert(x: real, s: Vec): (r: Vec)
    ensures |r| == |s| + 1
  {
    if s == [] || x <= s[0] then [x] + s else [s[0]] + Insert(x, s[1..])
  }

  function Sorted(s: Vec): (r: Vec)
    ensures |r| == |s|
  {
    if s == [] then [] else Insert(s[0], Sorted(s[1..]))
  }

  /** How many observations are at most x. */
  function CountLe(s: Vec, x: real): nat {
    if s == [] then 0 else (if s[0] <= x then 1 else 0) + CountLe(s[1..], x)
  }

  lemma {:induction false} InsertMultiset(x: real, s: Vec)
    ensures multiset(Insert(x, s)) == multiset(s) + multiset{x}
  {
    if s != [] && x > s[0] {
      InsertMultiset(x, s[1..]);
      assert s == [s[0]] + s[1..];
    }
  }

  lemma {:induction false} InsertIsOrdered(x: real, s: Vec)
    requires Ordered(s)
    ensures Ordered(Insert(x, s))
  {
    if s != [] && x > s[0] {
      var rest := Insert(x, s[1..]);
      InsertIsOrdered(x, s[1..]);
      InsertMultiset(x, s[1..]);
      forall j | 0 <= j < |rest|
        ensures s[0] <= rest[j]
      {
        assert rest[j] in multiset(rest);
        assert rest[j] == x || rest[j] in s[1..];
      }
    }
  }

  lemma {:induction false} SortedIsOrdered(s: Vec)
    ensures Ordered(Sorted(s)) && multiset(Sorted(s)) == multiset(s)
  {
    if s != [] {
      SortedIsOrdered(s[1..]);
      InsertIsOrdered(s[0], Sorted(s[1..]));
      InsertMultiset(s[0], Sorted(s[1..]));
      assert s == [s[0]] + s[1..];
    }
  }

  lemma {:induction false} CountAppend(s: Vec, t: Vec, x: real)
    ensures CountLe(s + t, x) == CountLe(s, x) + CountLe(t, x)
  {
    if s == [] {
      assert s + t == t;
    } else {
      assert (s + t)[1..] == s[1..] + t;
      CountAppend(s[1..], t, x);
    }
  }

  lemma {:induction false} CountPermuted(s: Vec, t: Vec, x: real)
    requires multiset(s) == multiset(t)
    ensures CountLe(s, x) == CountLe(t, x)
    decreases |s|
  {
    if s == [] {
      assert |multiset(t)| == 0;
    } else {
      var k := PermutedHead(s, t);
      CountPermuted(s[1..], t[..k] + t[k + 1..], x);
      CountAppend(t[..k], t[k..], x);
      CountAppend(t[..k], t[k + 1..], x);
      assert t == t[..k] + t[k..] && t[k..][1..] == t[k + 1..];
    }
  }

  /** The k-th smallest is at most x exactly when more than k observations are. */
  lemma {:induction false} OrderStatistic(s: Vec, k: nat, x: real)
    requires Ordered(s) && k < |s|
    ensures s[k] <= x <==> CountLe(s, x) > k
    decreases |s|
  {
    if s[0] > x {
      NoneAtMost(s, x);
    } else if k > 0 {
      OrderStatistic(s[1..], k - 1, x);
    }
  }

  lemma {:induction false} NoneAtMost(s: Vec, x: real)
    requires forall i :: 0 <= i < |s| ==> s[i] > x
    ensures CountLe(s, x) == 0
  {
    if s != [] {
      NoneAtMost(s[1..], x);
    }
  }

  lemma SortedStatistic(s: Vec, k: nat, x: real)
    requires k < |s|
    ensures Sorted(s)[k] <= x <==> CountLe(s, x) > k
  {
    SortedIsOrdered(s);
    CountPermuted(Sorted(s), s, x);
    OrderStatistic(Sorted(s), k, x);
  }

  /** Sorting forgets the order of the observations. */
  lemma SortedPermuted(s: Vec, t: Vec)
    requires multiset(s) == multiset(t)
    ensures Sorted(s) == Sorted(t)
  {
    assert |s| == |multiset(s)| == |t|;
    forall k | 0 <= k < |s|
      ensures Sorted(s)[k] == Sorted(t)[k]
    {
      var a, b := Sorted(s)[k], Sorted(t)[k];
      CountPermuted(s, t, a);
      CountPermuted(s, t, b);
      SortedStatistic(s, k, a);
      SortedStatistic(t, k, a);
      SortedStatistic(s, k, b);
      SortedStatistic(t, k, b);
    }
  }

  lemma {:induction false} CountDominates(s: Vec, t: Vec, x: real)
    requires Below(s, t)
    ensures CountLe(s, x) >= CountLe(t, x)
  {
    if s != [] {
      assert Below(s[1..], t[1..]);
      CountDominates(s[1..], t[1..], x);
    }
  }

  /** Sorting keeps pointwise dominance. */
  lemma SortedDominates(s: Vec, t: Vec)
    requires Below(s, t)
    ensures Below(Sorted(s), Sorted(t))
  {
    forall k | 0 <= k < |s|
      ensures Sorted(s)[k] <= Sorted(t)[k]
    {
      var x := Sorted(t)[k];
      SortedStatistic(t, k, x);
      CountDominates(s, t, x);
      SortedStatistic(s, k, x);
    }
  }

  function Image(f: real -> real, s: Vec): (r: Vec)
    ensures |r| == |s|
  {
    seq(|s|, i requires 0 <= i < |s| => f(s[i]))
  }

  ghost predicate KeepsOrder(f: real -> real) {
    forall x, y :: x <= y <==> f(x) <= f(y)
  }

  lemma {:induction false} InsertImage(f: real -> real, x: real, s: Vec)
    requires KeepsOrder(f)
    ensures Insert(f(x), Image(f, s)) == Image(f, Insert(x, s))
  {
    if s != [] && x > s[0] {
      assert Image(f, s)[1..] == Image(f, s[1..]);
      InsertImage(f, x, s[1..]);
    }
  }

  lemma {:induction false} SortedImage(f: real -> real, s: Vec)
    requires KeepsOrder(f)
    ensures Sorted(Image(f, s)) == Image(f, Sorted(s))
  {
    if s != [] {
      assert Image(f, s)[1..] == Image(f, s[1..]);
      SortedImage(f, s[1..]);
      InsertImage(f, s[0], Sorted(s[1..]));
    }
  }

  // ----- the interpolated quantile -----

  /** The value at real position h of an indexed sample, linear between neighbours. */
  function At(s: Vec, h: real): real
    requires s != [] && h >= 0.0
  {
    var lo := h.Floor;
    if lo >= |s| - 1 then s[|s| - 1]
    else Lerp(s[lo], s[lo + 1], h - lo as real)
  }

  function Quantile(s: Vec, q: real): real
    requires s != [] && 0.0 <= q <= 1.0
  {
    At(Sorted(s), Position(|s|, q))
  }

  function Position(n: nat, q: real): (h: real)
    requires n >= 1 && 0.0 <= q <= 1.0
    ensures 0.0 <= h <= (n - 1) as real
  {
    var m := (n - 1) as real;
    ShareBounded(q, m, q * m);
    q * m
  }

  lemma LerpMonotone(a: real, b: real, v: real, w: real)
    requires a <= b && v <= w
    ensures Lerp(a, b, v) <= Lerp(a, b, w)
  {
    var d, e := b - a, w - v;
    ProductNonNegative(e, d, e * d);
    assert Lerp(a, b, w) - Lerp(a, b, v) == e * d;
  }

  /** At stays between the neighbouring order statistics. */
  lemma AtBracketed(s: Vec, h: real)
    requires s != [] && Ordered(s) && 0.0 <= h
    ensures var lo := if h.Floor >= |s| - 1 then |s| - 1 else h.Floor;
      && s[lo] <= At(s, h)
      && At(s, h) <= s[if lo == |s| - 1 then lo else lo + 1]
  {
    var lo := h.Floor;
    if lo < |s| - 1 {
      Between(s[lo], s[lo + 1], h - lo as real);
    }
  }

  lemma AtMonotone(s: Vec, h: real, k: real)
    requires s != [] && Ordered(s) && 0.0 <= h <= k
    ensures At(s, h) <= At(s, k)
  {
    var lo, hi := h.Floor, k.Floor;
    AtBracketed(s, h);
    AtBracketed(s, k);
    if lo == hi && lo < |s| - 1 {
      LerpMonotone(s[lo], s[lo + 1], h - lo as real, k - lo as real);
    }
  }

  lemma AtBelow(s: Vec, t: Vec, h: real)
    requires s != [] && Below(s, t) && 0.0 <= h
    ensures At(s, h) <= At(t, h)
  {
    var lo := h.Floor;
    if lo < |s| - 1 {
      var w := h - lo as real;
      BlendBelow(s[lo], s[lo + 1], t[lo], t[lo + 1], w);
    }
  }

  lemma BlendBelow(a: real, b: real, c: real, d: real, w: real)
    requires a <= c && b <= d && 0.0 <= w <= 1.0
    ensures Lerp(a, b, w) <= Lerp(c, d, w)
  {
    var v, x, y := 1.0 - w, c - a, d - b;
    ProductNonNegative(v, x, v * x);
    ProductNonNegative(w, y, w * y);
    assert Lerp(c, d, w) - Lerp(a, b, w) == v * x + w * y;
  }

  ghost predicate KeepsLines(f: real -> real) {
    forall a, b, w :: f(Lerp(a, b, w)) == Lerp(f(a), f(b), w)
  }

  lemma QuantileMonotone(s: Vec, p: real, q: real)
    requires s != [] && 0.0 <= p <= q <= 1.0
    ensures Quantile(s, p) <= Quantile(s, q)
  {
    SortedIsOrdered(s);
    var m, d := (|s| - 1) as real, q - p;
    ProductNonNegative(d, m, d * m);
    assert d * m == Position(|s|, q) - Position(|s|, p);
    AtMonotone(Sorted(s), Position(|s|, p), Position(|s|, q));
  }

  lemma QuantileBelow(s: Vec, t: Vec, q: real)
    requires s != [] && Below(s, t) && 0.0 <= q <= 1.0
    ensures Quantile(s, q) <= Quantile(t, q)
  {
    SortedDominates(s, t);
    AtBelow(Sorted(s), Sorted(t), Position(|s|, q));
  }

  lemma QuantilePermuted(s: Vec, t: Vec, q: real)
    requires s != [] && multiset(s) == multiset(t) && 0.0 <= q <= 1.0
    ensures t != [] && Quantile(s, q) == Quantile(t, q)
  {
    assert |s| == |multiset(s)| == |t|;
    SortedPermuted(s, t);
  }

  /** The quantile commutes with every increasing affine map of the observations. */
  lemma QuantileImage(f: real -> real, s: Vec, q: real)
    requires s != [] && 0.0 <= q <= 1.0 && KeepsOrder(f) && KeepsLines(f)
    ensures Quantile(Image(f, s), q) == f(Quantile(s, q))
  {
    SortedImage(f, s);
    AtImage(f, Sorted(s), Position(|s|, q));
  }

  lemma AtImage(f: real -> real, s: Vec, h: real)
    requires s != [] && h >= 0.0 && KeepsLines(f)
    ensures At(Image(f, s), h) == f(At(s, h))
  {
  }

  /** Multiplication by c, as a function of the observation. */
  function Scaler(c: real): real -> real {
    x => c * x
  }

  lemma ScalerKeepsOrder(c: real)
    requires c > 0.0
    ensures KeepsOrder(Scaler(c))
  {
    forall x, y
      ensures x <= y <==> Scaler(c)(x) <= Scaler(c)(y)
    {
      if x <= y {
        MulMonotone(x, y, c);
      } else {
        MulStrict(y, x, c);
      }
    }
  }

  lemma LerpScaled(c: real, a: real, b: real, w: real, ca: real, cb: real, cl: real)
    requires ca == c * a && cb == c * b && cl == c * Lerp(a, b, w)
    ensures cl == Lerp(ca, cb, w)
  {
    var d := b - a;
    assert c * d == cb - ca;
    assert c * (w * d) == w * (c * d);
    assert cl == ca + c * (w * d);
    MulSame(w, c * d, cb - ca);
  }

  lemma ScalerAt(c: real, x: real)
    ensures Scaler(c)(x) == c * x
  {
  }

  lemma ScalerKeepsLines(c: real)
    ensures KeepsLines(Scaler(c))
  {
    forall a, b, w
      ensures Scaler(c)(Lerp(a, b, w)) == Lerp(Scaler(c)(a), Scaler(c)(b), w)
    {
      ScalerAt(c, a);
      ScalerAt(c, b);
      ScalerAt(c, Lerp(a, b, w));
      LerpScaled(c, a, b, w, Scaler(c)(a), Scaler(c)(b), Scaler(c)(Lerp(a, b, w)));
    }
  }

  /** Some observation reaches the quantile. */
  lemma QuantileReached(s: Vec, q: real) returns (k: nat)
    requires s != [] && 0.0 <= q <= 1.0
    ensures k < |s| && s[k] >= Quantile(s, q)
  {
    SortedIsOrdered(s);
    AtBracketed(Sorted(s), Position(|s|, q));
    var top := Sorted(s)[|s| - 1];
    assert top in multiset(Sorted(s));
    k :| k < |s| && s[k] == top;
  }

  // ----- how many observations lie below a quantile -----

  function CountLt(s: Vec, x: real): nat {
    if s == [] then 0 else (if s[0] < x then 1 else 0) + CountLt(s[1..], x)
  }

  lemma {:induction false} CountLtAppend(s: Vec, t: Vec, x: real)
    ensures CountLt(s + t, x) == CountLt(s, x) + CountLt(t, x)
  {
    if s == [] {
      assert s + t == t;
    } else {
      assert (s + t)[1..] == s[1..] + t;
      CountLtAppend(s[1..], t, x);
    }
  }

  lemma {:induction false} CountLtPermuted(s: Vec, t: Vec, x: real)
    requires multiset(s) == multiset(t)
    ensures CountLt(s, x) == CountLt(t, x)
    decreases |s|
  {
    if s == [] {
      assert |multiset(t)| == 0;
    } else {
      var k := PermutedHead(s, t);
      CountLtPermuted(s[1..], t[..k] + t[k + 1..], x);
      CountLtAppend(t[..k], t[k..], x);
      CountLtAppend(t[..k], t[k + 1..], x);
      assert t == t[..k] + t[k..] && t[k..][1..] == t[k + 1..];
    }
  }

  /** No more than k observations are below x when the one at k is not. */
  lemma {:induction false} FewBelow(s: Vec, k: nat, x: real)
    requires Ordered(s) && k < |s| && s[k] >= x
    ensures CountLt(s, x) <= k
    decreases |s|
  {
    if k > 0 {
      FewBelow(s[1..], k - 1, x);
    } else {
      NoneBelow(s, x);
    }
  }

  lemma {:induction false} NoneBelow(s: Vec, x: real)
    requires forall i :: 0 <= i < |s| ==> s[i] >= x
    ensures CountLt(s, x) == 0
  {
    if s != [] {
      NoneBelow(s[1..], x);
    }
  }

  lemma {:induction false} CountMonotone(s: Vec, x: real, y: real)
    requires x <= y
    ensures CountLe(s, x) <= CountLe(s, y)
  {
    if s != [] {
      CountMonotone(s[1..], x, y);
    }
  }

  lemma QuantileIsAt(s: Vec, q: real)
    requires s != [] && 0.0 <= q <= 1.0
    ensures Quantile(s, q) == At(Sorted(s), Position(|s|, q)) && Position(|s|, q) == q * (|s| - 1) as real
  {
  }

  lemma AtCountsLe(s: Vec, h: real)
    requires s != [] && 0.0 <= h <= (|s| - 1) as real
    ensures CountLe(s, At(Sorted(s), h)) as real > h
  {
    var lo := if h.Floor >= |s| - 1 then |s| - 1 else h.Floor;
    SortedIsOrdered(s);
    AtBracketed(Sorted(s), h);
    SortedStatistic(s, lo, At(Sorted(s), h));
  }

  lemma AtCountsLt(s: Vec, h: real)
    requires s != [] && 0.0 <= h <= (|s| - 1) as real
    ensures CountLt(s, At(Sorted(s), h)) as real < h + 1.0
  {
    var lo, v := if h.Floor >= |s| - 1 then |s| - 1 else h.Floor, At(Sorted(s), h);
    SortedIsOrdered(s);
    AtBracketed(Sorted(s), h);
    CountLtPermuted(Sorted(s), s, v);
    if lo as real == h {
      AtWhole(Sorted(s), lo, h);
      FewBelow(Sorted(s), lo, v);
    } else {
      FewBelow(Sorted(s), lo + 1, v);
    }
  }

  /** More than q (n - 1) observations are at most the quantile, and fewer than one above that are below it. */
  lemma QuantileCounts(s: Vec, q: real)
    requires s != [] && 0.0 <= q <= 1.0
    ensures CountLe(s, Quantile(s, q)) as real > q * (|s| - 1) as real
    ensures CountLt(s, Quantile(s, q)) as real < q * (|s| - 1) as real + 1.0
  {
    hide *;
    QuantileIsAt(s, q);
    AtCountsLe(s, Position(|s|, q));
    AtCountsLt(s, Position(|s|, q));
  }

  lemma AtWhole(s: Vec, k: nat, h: real)
    requires k < |s| && h == k as real
    ensures At(s, h) == s[k]
  {
    assert h.Floor == k;
    assert h - k as real == 0.0;
  }

  ghost predicate Even(s: Vec, c: real, d: real) {
    forall i :: 0 <= i < |s| ==> s[i] == c + d * i as real
  }

  lemma EvenOrdered(s: Vec, c: real, d: real)
    requires d >= 0.0 && Even(s, c, d)
    ensures Ordered(s)
  {
    forall i, j | 0 <= i <= j < |s|
      ensures s[i] <= s[j]
    {
      MulMonotone(i as real, j as real, d);
    }
  }

  /** The sample c, c + d, c + 2 d and so on has the quantile at the same share of the way. */
  lemma EvenQuantile(s: Vec, c: real, d: real, q: real)
    requires s != [] && d >= 0.0 && 0.0 <= q <= 1.0 && Even(s, c, d)
    ensures Quantile(s, q) == c + d * (q * (|s| - 1) as real)
  {
    hide *;
    EvenOrdered(s, c, d);
    OrderedIsSorted(s);
    QuantileIsAt(s, q);
    EvenAt(s, c, d, Position(|s|, q));
    MulSame(d, Position(|s|, q), q * (|s| - 1) as real);
  }

  lemma {:induction false} OrderedIsSorted(s: Vec)
    requires Ordered(s)
    ensures Sorted(s) == s
  {
    if s != [] {
      OrderedIsSorted(s[1..]);
    }
  }

  lemma EvenAt(s: Vec, c: real, d: real, h: real)
    requires s != [] && 0.0 <= h <= (|s| - 1) as real && Even(s, c, d)
    ensures At(s, h) == c + d * h
  {
    var lo := h.Floor;
    if lo < |s| - 1 {
      var x := lo as real;
      assert s[lo] == c + d * x && (lo + 1) as real == x + 1.0;
      assert s[lo + 1] == c + d * (x + 1.0);
      EvenLerp(c, d, x, h, s[lo], s[lo + 1]);
    } else {
      assert h == (|s| - 1) as real;
    }
  }

  lemma EvenLerp(c: real, d: real, x: real, h: real, a: real, b: real)
    requires a == c + d * x && b == c + d * (x + 1.0)
    ensures Lerp(a, b, h - x) == c + d * h
  {
    assert b - a == d;
    assert (h - x) * d == d * h - d * x;
  }
}
