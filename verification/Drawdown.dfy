/** Wealth, drawdown and window returns of a P&L history (risk/historical_analytics.py). */
module Drawdown {
  import opened RealMath
  import opened Vectors

  /** What one unit grows to over consecutive returns. */
  function Growth(rs: Vec): real {
    if rs == [] then 1.0 else Growth(rs[..|rs| - 1]) * (1.0 + rs[|rs| - 1])
  }

  /** cumprod(1 + returns). */
  function Wealth(rs: Vec): (r: Vec)
    ensures |r| == |rs|
  {
    seq(|rs|, i requires 0 <= i < |rs| => Growth(rs[..i + 1]))
  }

  /** The running peak, the initial unit included. */
  function Peak(wealth: Vec, i: nat): (p: real)
    requires i <= |wealth|
    ensures p >= 1.0
  {
    if i == 0 then 1.0 else Max(Peak(wealth, i - 1), wealth[i - 1])
  }

  function DrawdownAt(rs: Vec, i: nat): real
    requires i < |rs|
  {
    Wealth(rs)[i] / Peak(Wealth(rs), i + 1) - 1.0
  }

  /** The least of the first n drawdowns. */
  function LeastDrawdown(rs: Vec, n: nat): real
    requires 1 <= n <= |rs|
  {
    if n == 1 then DrawdownAt(rs, 0) else Min(LeastDrawdown(rs, n - 1), DrawdownAt(rs, n - 1))
  }

  function MaxDrawdown(rs: Vec): real
    requires rs != []
  {
    LeastDrawdown(rs, |rs|)
  }

  /** _window_compound. */
  function WindowCompound(rs: Vec, start: nat, length: nat): real
    requires start + length <= |rs|
  {
    Growth(rs[start..start + length]) - 1.0
  }

  ghost predicate AllPositive(x: Vec) {
    forall i :: 0 <= i < |x| ==> x[i] > 0.0
  }

  ghost predicate GrowthPositive(rs: Vec) {
    forall i :: 0 <= i < |rs| ==> 1.0 + rs[i] > 0.0
  }

  // ----- growth over a window is a ratio of wealth -----

  lemma {:induction false} GrowthJoin(a: Vec, b: Vec)
    ensures Growth(a + b) == Growth(a) * Growth(b)
    decreases |b|
  {
    if b == [] {
      assert a + b == a;
    } else {
      var rest, x := b[..|b| - 1], b[|b| - 1];
      assert (a + b)[..|a + b| - 1] == a + rest;
      GrowthJoin(a, rest);
      MulAssoc(Growth(a), Growth(rest), 1.0 + x);
    }
  }

  /** Wealth after i periods, before the first of them one unit. */
  function WealthAfter(rs: Vec, i: nat): real
    requires i <= |rs|
  {
    Growth(rs[..i])
  }

  lemma WindowRatio(rs: Vec, start: nat, length: nat)
    requires start + length <= |rs|
    ensures WealthAfter(rs, start + length) == WealthAfter(rs, start) * (WindowCompound(rs, start, length) + 1.0)
  {
    var before, window := rs[..start], rs[start..start + length];
    assert rs[..start + length] == before + window;
    GrowthJoin(before, window);
    MulSame(Growth(before), Growth(window), WindowCompound(rs, start, length) + 1.0);
  }

  lemma {:induction false} WealthPositive(rs: Vec, i: nat)
    requires GrowthPositive(rs) && i <= |rs|
    ensures WealthAfter(rs, i) > 0.0
  {
    if i > 0 {
      WealthPositive(rs, i - 1);
      GrowthStep(rs, i);
      ProductPositive(WealthAfter(rs, i - 1), 1.0 + rs[i - 1], WealthAfter(rs, i));
    }
  }

  lemma GrowthStep(rs: Vec, i: nat)
    requires 1 <= i <= |rs|
    ensures WealthAfter(rs, i) == WealthAfter(rs, i - 1) * (1.0 + rs[i - 1])
  {
    assert rs[..i][..i - 1] == rs[..i - 1];
  }

  /** Wealth stays positive exactly when every growth factor is. */
  lemma PositiveExactly(rs: Vec)
    ensures AllPositive(Wealth(rs)) <==> GrowthPositive(rs)
  {
    if GrowthPositive(rs) {
      forall i | 0 <= i < |rs|
        ensures Wealth(rs)[i] > 0.0
      {
        WealthPositive(rs, i + 1);
      }
    }
    if AllPositive(Wealth(rs)) {
      forall i | 0 <= i < |rs|
        ensures 1.0 + rs[i] > 0.0
      {
        GrowthStep(rs, i + 1);
        var before := WealthAfter(rs, i);
        assert Wealth(rs)[i] == WealthAfter(rs, i + 1);
        assert i > 0 ==> Wealth(rs)[i - 1] == before;
        FactorPositive(before, 1.0 + rs[i], WealthAfter(rs, i + 1));
      }
    }
  }

  lemma FactorPositive(a: real, b: real, p: real)
    requires a > 0.0 && p == a * b && p > 0.0
    ensures b > 0.0
  {
    if b <= 0.0 {
      MulMonotone(b, 0.0, a);
      assert false;
    }
  }

  // ----- peaks -----

  lemma {:induction false} PeakAbove(rs: Vec, i: nat, j: nat)
    requires j <= i <= |rs|
    ensures Peak(Wealth(rs), i) >= WealthAfter(rs, j)
  {
    if j < i {
      PeakAbove(rs, i - 1, j);
    } else if i > 0 {
      assert Wealth(rs)[i - 1] == WealthAfter(rs, i);
    } else {
      assert rs[..0] == [];
    }
  }

  /** The peak is the wealth at some earlier point, the start included. */
  lemma {:induction false} PeakReached(rs: Vec, i: nat) returns (j: nat)
    requires i <= |rs|
    ensures j <= i && Peak(Wealth(rs), i) == WealthAfter(rs, j)
  {
    if i == 0 {
      j := 0;
      assert rs[..0] == [];
    } else {
      j := PeakReached(rs, i - 1);
      if Wealth(rs)[i - 1] > Peak(Wealth(rs), i - 1) {
        j := i;
      }
    }
  }

  // ----- drawdown and windows -----

  lemma RatioBelow(w: real, peak: real, base: real, g: real)
    requires w > 0.0 && peak >= base > 0.0 && w == base * g
    ensures w / peak <= g
  {
    var q := w / peak;
    Quotient(w, peak);
    FactorPositive(base, g, w);
    if q > g {
      MulStrict(g, q, peak);
      MulMonotone(base, peak, g);
      assert false;
    }
  }

  /** No window ending here did worse than the drawdown here. */
  lemma DrawdownBelowWindows(rs: Vec, start: nat, length: nat)
    requires GrowthPositive(rs) && length >= 1 && start + length <= |rs|
    ensures DrawdownAt(rs, start + length - 1) <= WindowCompound(rs, start, length)
  {
    var i := start + length;
    WealthPositive(rs, i);
    WealthPositive(rs, start);
    PeakAbove(rs, i, start);
    WindowRatio(rs, start, length);
    RatioBelow(WealthAfter(rs, i), Peak(Wealth(rs), i), WealthAfter(rs, start), WindowCompound(rs, start, length) + 1.0);
  }

  /** The drawdown is zero at a peak, and otherwise the return of the window since the peak. */
  lemma DrawdownIsWindow(rs: Vec, i: nat) returns (start: nat)
    requires GrowthPositive(rs) && i < |rs|
    ensures start <= i + 1
    ensures start == i + 1 ==> DrawdownAt(rs, i) == 0.0
    ensures start <= i ==> DrawdownAt(rs, i) == WindowCompound(rs, start, i + 1 - start)
  {
    start := PeakReached(rs, i + 1);
    var w, peak := WealthAfter(rs, i + 1), Peak(Wealth(rs), i + 1);
    WealthPositive(rs, start);
    if start == i + 1 {
      QuotientIs(w, peak, 1.0);
    } else {
      WindowRatio(rs, start, i + 1 - start);
      var g := WindowCompound(rs, start, i + 1 - start) + 1.0;
      QuotientIs(w, peak, g);
    }
  }

  lemma {:induction false} LeastBelow(rs: Vec, n: nat, i: nat)
    requires 1 <= n <= |rs| && i < n
    ensures LeastDrawdown(rs, n) <= DrawdownAt(rs, i)
  {
    if i < n - 1 {
      LeastBelow(rs, n - 1, i);
    }
  }

  lemma {:induction false} LeastReached(rs: Vec, n: nat) returns (i: nat)
    requires 1 <= n <= |rs|
    ensures i < n && LeastDrawdown(rs, n) == DrawdownAt(rs, i)
  {
    i := 0;
    if n > 1 {
      i := LeastReached(rs, n - 1);
      if DrawdownAt(rs, n - 1) < LeastDrawdown(rs, n - 1) {
        i := n - 1;
      }
    }
  }

  /** Maximum drawdown is the worst return of any window of any length, capped at zero. */
  ghost predicate IsWorstWindow(rs: Vec)
    requires rs != []
  {
    && MaxDrawdown(rs) <= 0.0
    && (forall s, n :: 1 <= n && 0 <= s && s + n <= |rs| ==> MaxDrawdown(rs) <= WindowCompound(rs, s, n))
    && (MaxDrawdown(rs) == 0.0 || exists s, n :: 1 <= n && 0 <= s && s + n <= |rs| && MaxDrawdown(rs) == WindowCompound(rs, s, n))
  }

  /** It is at most each window and at most zero, and it is zero or one of them, while wealth is positive. */
  lemma MaxDrawdownIsWorstWindow(rs: Vec)
    requires rs != [] && AllPositive(Wealth(rs))
    ensures IsWorstWindow(rs)
  {
    PositiveExactly(rs);
    forall s, n | 1 <= n && 0 <= s && s + n <= |rs|
      ensures MaxDrawdown(rs) <= WindowCompound(rs, s, n)
    {
      DrawdownBelowWindows(rs, s, n);
      LeastBelow(rs, |rs|, s + n - 1);
    }
    var i := LeastReached(rs, |rs|);
    DrawdownRange(rs, i);
    var start := DrawdownIsWindow(rs, i);
    if start <= i {
      assert MaxDrawdown(rs) == WindowCompound(rs, start, i + 1 - start);
    }
  }

  lemma DrawdownRange(rs: Vec, i: nat)
    requires i < |rs|
    ensures DrawdownAt(rs, i) <= 0.0
    ensures DrawdownAt(rs, i) > -1.0 <==> Wealth(rs)[i] > 0.0
  {
    var w, peak := WealthAfter(rs, i + 1), Peak(Wealth(rs), i + 1);
    PeakAbove(rs, i + 1, i + 1);
    RatioRange(w, peak);
  }

  lemma RatioRange(w: real, peak: real)
    requires peak >= 1.0 && w <= peak
    ensures w / peak <= 1.0 && (w / peak > 0.0 <==> w > 0.0)
  {
    var q := w / peak;
    Quotient(w, peak);
    if q > 1.0 {
      MulStrict(1.0, q, peak);
      assert false;
    }
    if q > 0.0 {
      MulStrict(0.0, q, peak);
    } else {
      MulMonotone(q, 0.0, peak);
    }
  }

  /** Every drawdown lies in (-1, 0] exactly when wealth stays positive. */
  lemma DrawdownsInRange(rs: Vec)
    ensures forall i :: 0 <= i < |rs| ==> DrawdownAt(rs, i) <= 0.0
    ensures (forall i :: 0 <= i < |rs| ==> DrawdownAt(rs, i) > -1.0) <==> AllPositive(Wealth(rs))
  {
    forall i | 0 <= i < |rs|
      ensures DrawdownAt(rs, i) <= 0.0
      ensures DrawdownAt(rs, i) > -1.0 <==> Wealth(rs)[i] > 0.0
    {
      DrawdownRange(rs, i);
    }
  }

  lemma GrowthOfTwo(a: real, b: real)
    ensures Growth([a]) == 1.0 + a && Growth([a, b]) == (1.0 + a) * (1.0 + b)
  {
    assert [a][..0] == [] && [a, b][..1] == [a];
  }

  /** Only terminal wealth is checked: losing everything twice over passes, and then a window did worse than the drawdown says. */
  lemma NegativeWealthBreaksIt()
    ensures Wealth([-2.0, -3.0])[1] > 0.0
    ensures MaxDrawdown([-2.0, -3.0]) == -2.0
    ensures WindowCompound([-2.0, -3.0], 1, 1) == -3.0
  {
    var r := [-2.0, -3.0];
    GrowthOfTwo(-2.0, -3.0);
    GrowthOfTwo(-3.0, 0.0);
    assert r[..1] == [-2.0] && r[..2] == r && r[1..2] == [-3.0];
    assert Wealth(r)[0] == -1.0 && Wealth(r)[1] == 2.0;
    assert Peak(Wealth(r), 0) == 1.0;
    assert Peak(Wealth(r), 1) == 1.0;
    assert Peak(Wealth(r), 2) == 2.0;
    QuotientIs(2.0, 2.0, 1.0);
    assert DrawdownAt(r, 0) == -2.0 && DrawdownAt(r, 1) == 0.0;
    assert LeastDrawdown(r, 1) == -2.0;
  }

  // ----- exactly when it is, however the history goes on -----

  lemma {:induction false} PeakOfPrefix(rs: Vec, z: real, i: nat)
    requires i <= |rs|
    ensures Peak(Wealth(rs + [z]), i) == Peak(Wealth(rs), i)
  {
    if i > 0 {
      PeakOfPrefix(rs, z, i - 1);
      assert (rs + [z])[..i] == rs[..i];
    }
  }

  lemma {:induction false} LeastOfPrefix(rs: Vec, z: real, n: nat)
    requires 1 <= n <= |rs|
    ensures LeastDrawdown(rs + [z], n) == LeastDrawdown(rs, n)
  {
    PeakOfPrefix(rs, z, n);
    assert (rs + [z])[..n] == rs[..n];
    if n > 1 {
      LeastOfPrefix(rs, z, n - 1);
    }
  }

  lemma {:induction false} GrowthIsPositive(rs: Vec)
    requires GrowthPositive(rs)
    ensures Growth(rs) > 0.0
  {
    if rs != [] {
      var rest, x := rs[..|rs| - 1], 1.0 + rs[|rs| - 1];
      GrowthIsPositive(rest);
      ProductPositive(Growth(rest), x, Growth(rest) * x);
    }
  }

  /** Where terminal wealth is positive but a factor is not, some final window has lost more than everything. */
  lemma {:induction false} NegativeSuffix(rs: Vec, tail: Vec) returns (p: nat)
    requires !GrowthPositive(rs) && GrowthPositive(tail) && Growth(rs + tail) > 0.0
    ensures p < |rs| && Growth(rs[p..] + tail) < 0.0
    decreases |rs|
  {
    var n := |rs| - 1;
    var rest, x := rs[..n], rs[n];
    assert rs == rest + [x];
    assert rest + ([x] + tail) == rs + tail;
    if 1.0 + x > 0.0 {
      p := NegativeSuffix(rest, [x] + tail);
      assert rest[p..] + ([x] + tail) == rs[p..] + tail;
    } else {
      p := n;
      assert rs[n..] == [x];
      LosingFactor(rest, x, tail);
    }
  }

  lemma LosingFactor(rest: Vec, x: real, tail: Vec)
    requires 1.0 + x <= 0.0 && GrowthPositive(tail) && Growth(rest + ([x] + tail)) > 0.0
    ensures Growth([x] + tail) < 0.0
  {
    GrowthJoin(rest, [x] + tail);
    GrowthJoin([x], tail);
    GrowthOfOne(x);
    GrowthIsPositive(tail);
    NegativeProduct(Growth(rest), Growth([x] + tail), 1.0 + x, Growth(tail));
  }

  lemma GrowthOfOne(x: real)
    ensures Growth([x]) == 1.0 + x
  {
    assert [x][..0] == [];
  }

  lemma NegativeProduct(before: real, p: real, a: real, b: real)
    requires a <= 0.0 && b > 0.0 && p == a * b && before * p > 0.0
    ensures p < 0.0
  {
    MulMonotone(a, 0.0, b);
  }

  /** A gain that makes a losing window worse than bound. */
  lemma GainEnough(loss: real, bound: real) returns (z: real)
    requires loss < 0.0 && bound <= -1.0
    ensures z > 0.0 && loss * (1.0 + z) - 1.0 < bound
  {
    var m := -loss;
    z := (1.0 - bound) / m;
    Quotient(1.0 - bound, m);
    if z <= 0.0 {
      MulMonotone(z, 0.0, m);
    }
    assert loss * (1.0 + z) == loss - z * m;
  }

  lemma GrowthSnoc(rs: Vec, z: real)
    ensures Growth(rs + [z]) == Growth(rs) * (1.0 + z)
  {
    assert (rs + [z])[..|rs|] == rs;
  }

  lemma GrowsOn(rs: Vec, z: real)
    requires Growth(rs) > 0.0 && z > 0.0
    ensures Growth(rs + [z]) > 0.0
  {
    GrowthSnoc(rs, z);
    ProductPositive(Growth(rs), 1.0 + z, Growth(rs + [z]));
  }

  lemma EndOfWealth(rs: Vec)
    requires rs != []
    ensures Wealth(rs)[|rs| - 1] == Growth(rs)
  {
    assert rs[..|rs|] == rs;
  }

  lemma LastDrawdown(rs: Vec)
    requires rs != [] && Growth(rs) > 0.0
    ensures DrawdownAt(rs, |rs| - 1) > -1.0
  {
    EndOfWealth(rs);
    DrawdownRange(rs, |rs| - 1);
  }

  lemma EarlierDrawdown(rs: Vec, z: real, i: nat)
    requires i < |rs|
    ensures DrawdownAt(rs + [z], i) >= MaxDrawdown(rs)
  {
    LeastOfPrefix(rs, z, |rs|);
    LeastBelow(rs + [z], |rs|, i);
  }

  lemma LaterDrawdown(rs: Vec, z: real)
    requires Growth(rs) > 0.0 && z > 0.0
    ensures DrawdownAt(rs + [z], |rs|) > -1.0
  {
    GrowsOn(rs, z);
    LastDrawdown(rs + [z]);
  }

  lemma LongerDrawdown(rs: Vec, z: real)
    requires rs != [] && Growth(rs) > 0.0 && z > 0.0
    ensures MaxDrawdown(rs + [z]) >= Min(MaxDrawdown(rs), -1.0)
  {
    var i := LeastReached(rs + [z], |rs| + 1);
    if i < |rs| {
      EarlierDrawdown(rs, z, i);
    } else {
      LaterDrawdown(rs, z);
    }
  }

  lemma LongerWindow(rs: Vec, z: real, p: nat)
    requires p < |rs|
    ensures WindowCompound(rs + [z], p, |rs| + 1 - p) == Growth(rs[p..]) * (1.0 + z) - 1.0
  {
    assert (rs + [z])[p..p + (|rs| + 1 - p)] == rs[p..] + [z];
    GrowthSnoc(rs[p..], z);
  }

  lemma GainBreaksIt(rs: Vec) returns (z: real)
    requires rs != [] && Growth(rs) > 0.0 && !GrowthPositive(rs)
    ensures z > 0.0 && !IsWorstWindow(rs + [z])
  {
    assert rs + [] == rs;
    var p := NegativeSuffix(rs, []);
    assert rs[p..] + [] == rs[p..];
    z := GainEnough(Growth(rs[p..]), Min(MaxDrawdown(rs), -1.0));
    LongerDrawdown(rs, z);
    LongerWindow(rs, z, p);
    var s, n, longer := p, |rs| + 1 - p, rs + [z];
    assert 1 <= n && s + n <= |longer| && WindowCompound(longer, s, n) < MaxDrawdown(longer);
  }

  /**
   * On a history the terminal check lets through, maximum drawdown is the worst window and stays so however the history goes
   * on with positive growth, exactly when every return is above -1.
   */
  lemma WorstWindowExactly(rs: Vec)
    requires rs != [] && Growth(rs) > 0.0
    ensures (forall zs :: GrowthPositive(zs) ==> IsWorstWindow(rs + zs)) <==> GrowthPositive(rs)
  {
    if GrowthPositive(rs) {
      forall zs | GrowthPositive(zs)
        ensures IsWorstWindow(rs + zs)
      {
        PositiveExactly(rs + zs);
        MaxDrawdownIsWorstWindow(rs + zs);
      }
    } else {
      var z := GainBreaksIt(rs);
      assert GrowthPositive([z]);
    }
  }
}
