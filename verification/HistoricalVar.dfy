/**
 * Historical VaR and expected shortfall of a P&L vector
 * (risk/hierarchy.py, _var_es_from_historical_pnl; risk/historical.py, HistoricalRiskEngine.calculate).
 */
module HistoricalVar {
  import opened Wrappers
  import opened RealMath
  import opened Vectors
  import opened Quantiles

  datatype VarEs = VarEs(var95: real, var99: real, es99: real)

  /** Losses that reach the threshold, in scenario order. */
  function Tail(losses: Vec, threshold: real): Vec {
    if losses == [] then []
    else (if losses[0] >= threshold then [losses[0]] else []) + Tail(losses[1..], threshold)
  }

  function ShortfallOver(losses: Vec, threshold: real): real {
    var tail := Tail(losses, threshold);
    Max(0.0, if tail != [] then Mean(tail) else threshold)
  }

  function VarEsOfLosses(losses: Vec): VarEs
    requires losses != []
  {
    var var99 := Max(0.0, Quantile(losses, 0.99));
    VarEs(Max(0.0, Quantile(losses, 0.95)), var99, ShortfallOver(losses, var99))
  }

  /** An absent or empty vector has no risk. */
  function VarEsFromHistoricalPnl(pnl: Option<Vec>): VarEs {
    match pnl
    case None => VarEs(0.0, 0.0, 0.0)
    case Some(series) => if series == [] then VarEs(0.0, 0.0, 0.0) else VarEsOfLosses(Negate(series))
  }

  // ----- the tail -----

  lemma {:induction false} TailReaches(losses: Vec, threshold: real)
    ensures forall k :: 0 <= k < |Tail(losses, threshold)| ==>
      Tail(losses, threshold)[k] >= threshold && Tail(losses, threshold)[k] in losses
  {
    if losses != [] {
      TailReaches(losses[1..], threshold);
    }
  }

  lemma {:induction false} TailKeeps(losses: Vec, threshold: real, k: nat)
    requires k < |losses| && losses[k] >= threshold
    ensures losses[k] in Tail(losses, threshold)
  {
    if k > 0 {
      TailKeeps(losses[1..], threshold, k - 1);
    }
  }

  lemma MeanAtMost(x: Vec, c: real)
    requires x != [] && forall i :: 0 <= i < |x| ==> x[i] <= c
    ensures Mean(x) <= c
  {
    MeanAtLeast(Negate(x), -c);
    SumNegate(x);
    var n, total := |x| as real, Sum(x);
    QuotientIs(-total, n, -(total / n));
  }

  /** 0 <= VaR95 <= VaR99 <= ES99, and ES99 never exceeds the worst loss, floored at zero. */
  lemma VarEsOrdered(pnl: Option<Vec>, worst: real)
    requires pnl.Some? ==> forall i :: 0 <= i < |pnl.value| ==> -pnl.value[i] <= worst
    requires worst >= 0.0
    ensures var r := VarEsFromHistoricalPnl(pnl); 0.0 <= r.var95 <= r.var99 <= r.es99 <= worst
  {
    if pnl.Some? && pnl.value != [] {
      var losses := Negate(pnl.value);
      var var99 := Max(0.0, Quantile(losses, 0.99));
      QuantileMonotone(losses, 0.95, 0.99);
      var k := QuantileReached(losses, 0.99);
      TailReaches(losses, var99);
      var tail := Tail(losses, var99);
      if tail != [] {
        MeanAtLeast(tail, var99);
        MeanAtMost(tail, worst);
      }
    }
  }

  /** Reordering the scenarios changes nothing. */
  lemma VarEsPermuted(pnl: Vec, pnl': Vec)
    requires multiset(pnl) == multiset(pnl')
    ensures VarEsFromHistoricalPnl(Some(pnl)) == VarEsFromHistoricalPnl(Some(pnl'))
  {
    assert |pnl| == |multiset(pnl)| == |pnl'|;
    if pnl != [] {
      var losses, losses' := Negate(pnl), Negate(pnl');
      NegatePermuted(pnl, pnl');
      QuantilePermuted(losses, losses', 0.95);
      QuantilePermuted(losses, losses', 0.99);
      var var99 := Max(0.0, Quantile(losses, 0.99));
      TailPermuted(losses, losses', var99);
      var tail, tail' := Tail(losses, var99), Tail(losses', var99);
      assert |tail| == |multiset(tail)| == |tail'|;
      SumPermuted(tail, tail');
    }
  }

  lemma {:induction false} NegateMultiset(x: Vec, v: real)
    ensures multiset(Negate(x))[v] == multiset(x)[-v]
  {
    if x != [] {
      NegateMultiset(x[1..], v);
      assert Negate(x) == [-x[0]] + Negate(x[1..]);
      assert x == [x[0]] + x[1..];
    }
  }

  lemma NegatePermuted(x: Vec, y: Vec)
    requires multiset(x) == multiset(y)
    ensures multiset(Negate(x)) == multiset(Negate(y))
  {
    forall v
      ensures multiset(Negate(x))[v] == multiset(Negate(y))[v]
    {
      NegateMultiset(x, v);
      NegateMultiset(y, v);
    }
  }

  lemma {:induction false} TailMultiset(losses: Vec, threshold: real, v: real)
    ensures multiset(Tail(losses, threshold))[v] == if v >= threshold then multiset(losses)[v] else 0
  {
    if losses != [] {
      TailMultiset(losses[1..], threshold, v);
      assert losses == [losses[0]] + losses[1..];
    }
  }

  lemma TailPermuted(losses: Vec, losses': Vec, threshold: real)
    requires multiset(losses) == multiset(losses')
    ensures multiset(Tail(losses, threshold)) == multiset(Tail(losses', threshold))
  {
    forall v
      ensures multiset(Tail(losses, threshold))[v] == multiset(Tail(losses', threshold))[v]
    {
      TailMultiset(losses, threshold, v);
      TailMultiset(losses', threshold, v);
    }
  }

  lemma MaxImage(f: real -> real, x: real)
    requires KeepsOrder(f) && f(0.0) == 0.0
    ensures Max(0.0, f(x)) == f(Max(0.0, x))
  {
  }

  lemma {:induction false} TailImage(f: real -> real, losses: Vec, threshold: real)
    requires KeepsOrder(f)
    ensures Tail(Image(f, losses), f(threshold)) == Image(f, Tail(losses, threshold))
  {
    if losses != [] {
      assert Image(f, losses)[1..] == Image(f, losses[1..]);
      TailImage(f, losses[1..], threshold);
      var head := if losses[0] >= threshold then [losses[0]] else [];
      assert Image(f, head + Tail(losses[1..], threshold)) == Image(f, head) + Image(f, Tail(losses[1..], threshold));
    }
  }

  ghost predicate KeepsMeans(f: real -> real) {
    forall x: Vec :: x != [] ==> Mean(Image(f, x)) == f(Mean(x))
  }

  ghost predicate IsScaling(f: real -> real) {
    KeepsOrder(f) && KeepsLines(f) && KeepsMeans(f) && f(0.0) == 0.0
  }

  lemma ShortfallImage(f: real -> real, losses: Vec, threshold: real)
    requires KeepsOrder(f) && KeepsMeans(f) && f(0.0) == 0.0
    ensures ShortfallOver(Image(f, losses), f(threshold)) == f(ShortfallOver(losses, threshold))
  {
    TailImage(f, losses, threshold);
    var tail := Tail(losses, threshold);
    if tail != [] {
      assert Mean(Image(f, tail)) == f(Mean(tail));
      MaxImage(f, Mean(tail));
    } else {
      MaxImage(f, threshold);
    }
  }

  lemma FlooredQuantileImage(f: real -> real, losses: Vec, q: real)
    requires losses != [] && IsScaling(f) && 0.0 <= q <= 1.0
    ensures Max(0.0, Quantile(Image(f, losses), q)) == f(Max(0.0, Quantile(losses, q)))
  {
    QuantileImage(f, losses, q);
    MaxImage(f, Quantile(losses, q));
  }

  lemma VarEsImage(f: real -> real, losses: Vec)
    requires losses != [] && IsScaling(f)
    ensures var r, s := VarEsOfLosses(losses), VarEsOfLosses(Image(f, losses));
      s.var95 == f(r.var95) && s.var99 == f(r.var99) && s.es99 == f(r.es99)
  {
    FlooredQuantileImage(f, losses, 0.95);
    FlooredQuantileImage(f, losses, 0.99);
    ShortfallImage(f, losses, Max(0.0, Quantile(losses, 0.99)));
  }

  lemma MeanScaled(c: real, x: Vec)
    requires x != []
    ensures Mean(Scale(c, x)) == c * Mean(x)
  {
    SumScale(c, x);
    var n, total := |x| as real, Sum(x);
    Quotient(total, n);
    MulAssoc(c, total / n, n);
    QuotientIs(c * total, n, c * (total / n));
  }

  lemma ScaleIsImage(c: real, x: Vec)
    ensures Image(Scaler(c), x) == Scale(c, x)
  {
    forall i | 0 <= i < |x|
      ensures Image(Scaler(c), x)[i] == Scale(c, x)[i]
    {
    }
  }

  lemma ScalerKeepsMeans(c: real)
    ensures KeepsMeans(Scaler(c))
  {
    forall x: Vec | x != []
      ensures Mean(Image(Scaler(c), x)) == Scaler(c)(Mean(x))
    {
      ScaleIsImage(c, x);
      MeanScaled(c, x);
    }
  }

  lemma NegateScaled(c: real, x: Vec)
    ensures Negate(Scale(c, x)) == Scale(c, Negate(x))
  {
    forall i | 0 <= i < |x|
      ensures Negate(Scale(c, x))[i] == Scale(c, Negate(x))[i]
    {
      assert -(c * x[i]) == c * -x[i];
    }
  }

  lemma RiskOfImage(f: real -> real, pnl: Vec, pnl': Vec)
    requires IsScaling(f) && |pnl| == |pnl'| && Negate(pnl') == Image(f, Negate(pnl))
    ensures var r, s := VarEsFromHistoricalPnl(Some(pnl)), VarEsFromHistoricalPnl(Some(pnl'));
      s.var95 == f(r.var95) && s.var99 == f(r.var99) && s.es99 == f(r.es99)
  {
    if pnl != [] {
      VarEsImage(f, Negate(pnl));
    }
  }

  lemma ScalerIsScaling(c: real)
    requires c > 0.0
    ensures IsScaling(Scaler(c))
  {
    ScalerKeepsOrder(c);
    ScalerKeepsLines(c);
    ScalerKeepsMeans(c);
    MulZero(c, 0.0);
  }

  lemma NegateScaler(c: real, pnl: Vec)
    ensures Negate(Scale(c, pnl)) == Image(Scaler(c), Negate(pnl))
  {
    NegateScaled(c, pnl);
    ScaleIsImage(c, Negate(pnl));
  }

  /** Risk is homogeneous: c times the P&L has c times the VaR and ES. */
  lemma VarEsScaled(c: real, pnl: Vec)
    requires c > 0.0
    ensures var r, s := VarEsFromHistoricalPnl(Some(pnl)), VarEsFromHistoricalPnl(Some(Scale(c, pnl)));
      s.var95 == Scaler(c)(r.var95) && s.var99 == Scaler(c)(r.var99) && s.es99 == Scaler(c)(r.es99)
  {
    ScalerIsScaling(c);
    NegateScaler(c, pnl);
    RiskOfImage(Scaler(c), pnl, Scale(c, pnl));
  }

  /** If every scenario P&L gets worse or stays, VaR does not fall. */
  lemma VarMonotone(worse: Vec, pnl: Vec)
    requires Below(worse, pnl)
    ensures var r, s := VarEsFromHistoricalPnl(Some(pnl)), VarEsFromHistoricalPnl(Some(worse));
      r.var95 <= s.var95 && r.var99 <= s.var99
  {
    if pnl != [] {
      assert Below(Negate(pnl), Negate(worse));
      QuantileBelow(Negate(pnl), Negate(worse), 0.95);
      QuantileBelow(Negate(pnl), Negate(worse), 0.99);
    }
  }

  // ----- the levels -----

  lemma AtLevel(n: nat, m: nat, q: real, percent: int)
    requires n >= 1 && q == percent as real / 100.0
    ensures m as real > q * (n - 1) as real ==> 100 * m > percent * (n - 1)
    ensures m as real < q * (n - 1) as real + 1.0 ==> 100 * m < percent * (n - 1) + 100
  {
    var x := (n - 1) as real;
    assert 100.0 * (q * x) == percent as real * x;
    assert percent as real * x == (percent * (n - 1)) as real;
    assert 100.0 * m as real == (100 * m) as real;
  }

  lemma FlooredIs(x: real, v: real)
    requires v == Max(0.0, x)
    ensures x <= v && (v > 0.0 ==> v == x)
  {
  }

  /** A quantile floored at zero. */
  lemma FlooredLevel(losses: Vec, q: real, percent: int, v: real)
    requires losses != [] && 0.0 <= q <= 1.0 && q == percent as real / 100.0 && v == Max(0.0, Quantile(losses, q))
    ensures 100 * CountLe(losses, v) > percent * (|losses| - 1)
    ensures v > 0.0 ==> 100 * CountLt(losses, v) < percent * (|losses| - 1) + 100
  {
    hide *;
    FlooredIs(Quantile(losses, q), v);
    QuantileCounts(losses, q);
    CountMonotone(losses, Quantile(losses, q), v);
    AtLevel(|losses|, CountLe(losses, Quantile(losses, q)), q, percent);
    AtLevel(|losses|, CountLt(losses, Quantile(losses, q)), q, percent);
  }

  /**
   * VaR at 95 and at 99: of n losses, more than that percentage of n - 1 are at most the VaR, and, where it is not floored,
   * fewer than one more are below it.
   */
  lemma VarLevels(pnl: Vec)
    requires pnl != []
    ensures var r, losses, n := VarEsFromHistoricalPnl(Some(pnl)), Negate(pnl), |pnl|;
      && 100 * CountLe(losses, r.var95) > 95 * (n - 1) && 100 * CountLe(losses, r.var99) > 99 * (n - 1)
      && (r.var95 > 0.0 ==> 100 * CountLt(losses, r.var95) < 95 * (n - 1) + 100)
      && (r.var99 > 0.0 ==> 100 * CountLt(losses, r.var99) < 99 * (n - 1) + 100)
  {
    var r, losses := VarEsFromHistoricalPnl(Some(pnl)), Negate(pnl);
    FlooredLevel(losses, 0.95, 95, r.var95);
    FlooredLevel(losses, 0.99, 99, r.var99);
  }

  // ----- expected shortfall and the width of its tail -----

  /** What the losses exceed the threshold by, in all. */
  function Excess(losses: Vec, threshold: real): real {
    if losses == [] then 0.0
    else Max(0.0, losses[0] - threshold) + Excess(losses[1..], threshold)
  }

  /** t, n times over. */
  function Times(n: nat, t: real): real {
    if n == 0 then 0.0 else t + Times(n - 1, t)
  }

  lemma {:induction false} TimesIsProduct(n: nat, t: real)
    ensures Times(n, t) == t * n as real
  {
    if n > 0 {
      TimesIsProduct(n - 1, t);
      var m := (n - 1) as real;
      assert n as real == m + 1.0;
      assert t * (m + 1.0) == t * m + t;
    }
  }

  lemma {:induction false} TailIsExcess(losses: Vec, t: real)
    ensures Sum(Tail(losses, t)) == Times(|Tail(losses, t)|, t) + Excess(losses, t)
    ensures Excess(losses, t) >= 0.0
  {
    if losses != [] {
      TailIsExcess(losses[1..], t);
      if losses[0] >= t {
        assert Tail(losses, t)[1..] == Tail(losses[1..], t);
      } else {
        assert Tail(losses, t) == Tail(losses[1..], t);
      }
    }
  }

  /** Any tail of smaller losses costs at most t each plus the excess over t. */
  lemma {:induction false} TailUnderExcess(smaller: Vec, losses: Vec, u: real, t: real)
    requires Below(smaller, losses)
    ensures Sum(Tail(smaller, u)) <= Times(|Tail(smaller, u)|, t) + Excess(losses, t)
  {
    if losses != [] {
      TailUnderExcess(smaller[1..], losses[1..], u, t);
      if smaller[0] >= u {
        assert Tail(smaller, u)[1..] == Tail(smaller[1..], u);
      } else {
        assert Tail(smaller, u) == Tail(smaller[1..], u);
      }
    }
  }

  lemma NarrowerTailMean(smaller: Vec, losses: Vec, u: real, t: real)
    requires Below(smaller, losses)
    requires 0 < |Tail(losses, t)| <= |Tail(smaller, u)|
    ensures Mean(Tail(smaller, u)) <= Mean(Tail(losses, t))
  {
    TailIsExcess(losses, t);
    TailUnderExcess(smaller, losses, u, t);
    MeanGap(Sum(Tail(smaller, u)), |Tail(smaller, u)|, Sum(Tail(losses, t)), |Tail(losses, t)|, t, Excess(losses, t));
  }

  lemma MeanGap(a: real, m: nat, b: real, n: nat, t: real, e: real)
    requires 0 < n <= m && e >= 0.0
    requires a <= Times(m, t) + e && b == Times(n, t) + e
    ensures a / m as real <= b / n as real
  {
    TimesIsProduct(m, t);
    TimesIsProduct(n, t);
    MeanGapReal(a, m as real, b, n as real, t, e, t * m as real, t * n as real);
  }

  lemma MeanGapReal(a: real, m: real, b: real, n: real, t: real, e: real, tm: real, tn: real)
    requires 0.0 < n <= m && e >= 0.0 && tm == t * m && tn == t * n
    requires a <= tm + e && b == tn + e
    ensures a / m <= b / n
  {
    var x, y, z := a / m, t + e / n, e / n;
    Quotient(a, m);
    Quotient(e, n);
    assert y * n == tn + z * n;
    QuotientIs(b, n, y);
    assert z >= 0.0;
    MulMonotone(n, m, z);
    assert y * m == tm + z * m;
    assert x * m <= y * m;
    MulCancel(x, y, m);
  }

  /** The tail is empty only when every loss is a gain. */
  lemma TailEmpty(losses: Vec)
    requires losses != []
    ensures Tail(losses, Max(0.0, Quantile(losses, 0.99))) == []
      <==> forall i :: 0 <= i < |losses| ==> losses[i] < 0.0
  {
    var var99 := Max(0.0, Quantile(losses, 0.99));
    var k := QuantileReached(losses, 0.99);
    TailReaches(losses, var99);
    assert Tail(losses, var99) != [] ==> Tail(losses, var99)[0] in losses;
    if i :| 0 <= i < |losses| && losses[i] >= 0.0 {
      TailKeeps(losses, var99, if var99 == 0.0 then i else k);
    }
  }

  function Losses99(pnl: Vec): Vec
    requires pnl != []
  {
    Tail(Negate(pnl), Max(0.0, Quantile(Negate(pnl), 0.99)))
  }

  /** Worse P&L cannot lower the shortfall unless it widens the tail. */
  lemma ShortfallMonotone(worse: Vec, pnl: Vec)
    requires pnl != [] && Below(worse, pnl)
    requires |Losses99(worse)| <= |Losses99(pnl)|
    ensures VarEsFromHistoricalPnl(Some(pnl)).es99 <= VarEsFromHistoricalPnl(Some(worse)).es99
  {
    var a, b := Negate(pnl), Negate(worse);
    assert Below(a, b);
    var u, t := Max(0.0, Quantile(a, 0.99)), Max(0.0, Quantile(b, 0.99));
    TailEmpty(a);
    TailEmpty(b);
    if Tail(a, u) != [] {
      assert Tail(b, t) != [];
      NarrowerTailMean(a, b, u, t);
    } else {
      var k := QuantileReached(a, 0.99);
      assert u == 0.0;
    }
  }

  function Repeat(x: real, n: nat): (r: Vec)
    ensures |r| == n
  {
    seq(n, _ => x)
  }

  lemma {:induction false} TailOfPadded(n: nat, x: real, rest: Vec, threshold: real)
    requires x < threshold
    ensures Tail(Repeat(x, n) + rest, threshold) == Tail(rest, threshold)
  {
    var s := Repeat(x, n) + rest;
    if n == 0 {
      assert s == rest;
    } else {
      assert s[1..] == Repeat(x, n - 1) + rest;
      TailOfPadded(n - 1, x, rest, threshold);
    }
  }

  lemma PaddedOrdered(n: nat, rest: Vec)
    requires Ordered(rest) && rest != [] && rest[0] >= 0.0
    ensures Ordered(Repeat(0.0, n) + rest)
  {
    var losses := Repeat(0.0, n) + rest;
    forall i, j | 0 <= i <= j < |losses|
      ensures losses[i] <= losses[j]
    {
      if j >= n {
        assert rest[0] <= rest[j - n];
      }
    }
  }

  /** Of 101 ordered observations the 99% quantile is the last but one. */
  lemma QuantileOf101(losses: Vec)
    requires |losses| == 101 && Ordered(losses)
    ensures Quantile(losses, 0.99) == losses[99]
  {
    OrderedIsSorted(losses);
    assert Position(101, 0.99) == 99.0;
    AtWhole(losses, 99, 99.0);
  }

  lemma NegateTwice(x: Vec)
    ensures Negate(Negate(x)) == x
  {
  }

  lemma ShortfallOfPadded(n: nat, rest: Vec)
    requires n + |rest| == 101 && 1 < |rest| && Ordered(rest) && rest[0] == rest[|rest| - 2] == 1.0
    ensures VarEsFromHistoricalPnl(Some(Negate(Repeat(0.0, n) + rest))).es99 == ShortfallOver(rest, 1.0)
  {
    var losses := Repeat(0.0, n) + rest;
    PaddedOrdered(n, rest);
    QuantileOf101(losses);
    assert losses[99] == rest[99 - n] == 1.0;
    TailOfPadded(n, 0.0, rest, 1.0);
    NegateTwice(losses);
  }

  lemma TwoInTail()
    ensures ShortfallOver([1.0, 10.0], 1.0) == 5.5
  {
    assert Tail([1.0, 10.0], 1.0) == [1.0] + [10.0] == [1.0, 10.0];
    assert [1.0, 10.0][1..] == [10.0];
  }

  lemma ThreeInTail()
    ensures ShortfallOver([1.0, 1.0, 10.0], 1.0) == 4.0
  {
    assert [1.0, 1.0, 10.0][1..] == [1.0, 10.0];
    assert [1.0, 10.0][1..] == [10.0];
    assert Tail([1.0, 10.0], 1.0) == [1.0, 10.0];
    assert Tail([1.0, 1.0, 10.0], 1.0) == [1.0, 1.0, 10.0];
  }

  lemma OneMoreTie()
    ensures Below(Negate(Repeat(0.0, 98) + [1.0, 1.0, 10.0]), Negate(Repeat(0.0, 99) + [1.0, 10.0]))
  {
  }

  /** It can: one more loss tied at VaR and the reported shortfall drops from 5.5 to 4. */
  lemma ShortfallNotMonotone() returns (pnl: Vec, worse: Vec)
    ensures pnl != [] && Below(worse, pnl)
    ensures VarEsFromHistoricalPnl(Some(pnl)).es99 == 5.5
    ensures VarEsFromHistoricalPnl(Some(worse)).es99 == 4.0
  {
    ShortfallOfPadded(99, [1.0, 10.0]);
    ShortfallOfPadded(98, [1.0, 1.0, 10.0]);
    TwoInTail();
    ThreeInTail();
    OneMoreTie();
    pnl, worse := Negate(Repeat(0.0, 99) + [1.0, 10.0]), Negate(Repeat(0.0, 98) + [1.0, 1.0, 10.0]);
  }
}
