/**
 * When a worse P&L can lower expected shortfall (risk/hierarchy.py, _var_es_from_historical_pnl).
 *
 * VaR is interpolated between two order statistics and the tail is what reaches it, so the tail is what reaches the upper
 * of the two. A further loss raised to exactly that level joins the tail and, unless it was there already, thins it.
 */
module ShortfallOrder {
  import opened Wrappers
  import opened RealMath
  import opened Vectors
  import opened Quantiles
  import opened HistoricalVar

  /** The place of the upper neighbour of a quantile: its position, rounded up. */
  function UpperPlace(n: nat, q: real): (m: nat)
    requires n >= 1 && 0.0 <= q <= 1.0
    ensures m < n
    ensures Position(n, q) <= m as real < Position(n, q) + 1.0
  {
    var h := Position(n, q);
    if h == h.Floor as real then h.Floor else h.Floor + 1
  }

  /** The upper neighbour of VaR99 among the sorted losses, floored at zero. */
  function UpperLevel(losses: Vec): real
    requires losses != []
  {
    Max(0.0, Sorted(losses)[UpperPlace(|losses|, 0.99)])
  }

  function Level(losses: Vec): real
    requires losses != []
  {
    Max(0.0, Quantile(losses, 0.99))
  }

  lemma LerpReaches(a: real, b: real, w: real)
    requires a <= b && w > 0.0 && Lerp(a, b, w) <= a
    ensures a == b
  {
    if a < b {
      ProductPositive(w, b - a, w * (b - a));
    }
  }

  /** Nothing sorted below the upper neighbour reaches the interpolated value, unless it ties with it. */
  lemma AtLevels(t: Vec, h: real, m: nat, r: nat)
    requires Ordered(t) && r < |t| && m < |t| && 0.0 <= h <= m as real < h + 1.0
    ensures At(t, h) <= t[m]
    ensures t[r] >= At(t, h) ==> t[r] >= t[m]
  {
    AtBracketed(t, h);
    if h == m as real {
      assert h.Floor == m;
    } else {
      assert h.Floor == m - 1;
      if r < m && t[r] >= At(t, h) {
        assert t[r] <= t[m - 1];
        LerpReaches(t[m - 1], t[m], h - (m - 1) as real);
      }
    }
  }

  lemma QuantileLevels(s: Vec, r: nat)
    requires s != [] && r < |s|
    ensures Quantile(s, 0.99) <= Sorted(s)[UpperPlace(|s|, 0.99)]
    ensures Sorted(s)[r] >= Quantile(s, 0.99) ==> Sorted(s)[r] >= Sorted(s)[UpperPlace(|s|, 0.99)]
  {
    SortedIsOrdered(s);
    AtLevels(Sorted(s), Position(|s|, 0.99), UpperPlace(|s|, 0.99), r);
  }

  /** A loss reaches VaR99 exactly when it reaches the upper neighbour. */
  lemma ReachesUpper(losses: Vec, i: nat)
    requires i < |losses|
    ensures Level(losses) <= UpperLevel(losses)
    ensures losses[i] >= Level(losses) <==> losses[i] >= UpperLevel(losses)
  {
    SortedIsOrdered(losses);
    assert losses[i] in multiset(Sorted(losses));
    var r :| 0 <= r < |Sorted(losses)| && Sorted(losses)[r] == losses[i];
    QuantileLevels(losses, r);
  }

  lemma {:induction false} SameTail(losses: Vec, u: real, t: real)
    requires forall i :: 0 <= i < |losses| ==> (losses[i] >= u <==> losses[i] >= t)
    ensures Tail(losses, u) == Tail(losses, t)
  {
    if losses != [] {
      SameTail(losses[1..], u, t);
    }
  }

  /** The tail is what reaches the upper neighbour. */
  lemma UpperTail(losses: Vec)
    requires losses != []
    ensures Tail(losses, Level(losses)) == Tail(losses, UpperLevel(losses))
  {
    forall i | 0 <= i < |losses|
      ensures losses[i] >= Level(losses) <==> losses[i] >= UpperLevel(losses)
    {
      ReachesUpper(losses, i);
    }
    SameTail(losses, Level(losses), UpperLevel(losses));
  }

  function Shortfall(losses: Vec): real
    requires losses != []
  {
    ShortfallOver(losses, Level(losses))
  }

  /** So expected shortfall is never below it. */
  lemma ShortfallReachesUpper(losses: Vec)
    requires losses != []
    ensures Shortfall(losses) >= UpperLevel(losses)
  {
    var u, tail := UpperLevel(losses), Tail(losses, Level(losses));
    UpperTail(losses);
    if tail != [] {
      TailReaches(losses, u);
      MeanAtLeast(tail, u);
    } else {
      NoTail(losses);
    }
  }

  lemma NoTail(losses: Vec)
    requires losses != [] && Tail(losses, Level(losses)) == []
    ensures UpperLevel(losses) == 0.0
  {
    TailEmpty(losses);
    SortedIsOrdered(losses);
    assert Sorted(losses)[UpperPlace(|losses|, 0.99)] in multiset(losses);
  }

  // ----- where a worse book cannot report less -----

  /** Every loss reaches the order statistic just above VaR, or none exceeds it. */
  ghost predicate Settled(losses: Vec)
    requires losses != []
  {
    || (forall i :: 0 <= i < |losses| ==> losses[i] >= UpperLevel(losses))
    || (forall i :: 0 <= i < |losses| ==> losses[i] <= UpperLevel(losses))
  }

  lemma {:induction false} ExcessPositive(losses: Vec, i: nat, t: real)
    requires i < |losses| && losses[i] > t
    ensures Excess(losses, t) > 0.0
  {
    TailIsExcess(losses[1..], t);
    if i > 0 {
      ExcessPositive(losses[1..], i - 1, t);
    }
  }

  lemma AverageAbove(total: real, n: real, t: real, e: real)
    requires n > 0.0 && e > 0.0 && total == t * n + e
    ensures total / n > t
  {
    Quotient(total, n);
    if total / n <= t {
      MulMonotone(total / n, t, n);
    }
  }

  lemma TimesAbove(total: real, n: nat, t: real, e: real)
    requires n > 0 && e > 0.0 && total == Times(n, t) + e
    ensures total / n as real > t
  {
    TimesIsProduct(n, t);
    AverageAbove(total, n as real, t, e);
  }

  lemma TailMeanAbove(losses: Vec, u: real, i: nat)
    requires i < |losses| && losses[i] > u
    ensures Tail(losses, u) != [] && Mean(Tail(losses, u)) > u
  {
    var tail := Tail(losses, u);
    TailKeeps(losses, u, i);
    TailIsExcess(losses, u);
    ExcessPositive(losses, i, u);
    TimesAbove(Sum(tail), |tail|, u, Excess(losses, u));
  }

  lemma TailMeanBelow(losses: Vec, u: real)
    requires Tail(losses, u) != [] && forall i :: 0 <= i < |losses| ==> losses[i] <= u
    ensures Mean(Tail(losses, u)) <= u
  {
    TailReaches(losses, u);
    MeanAtMost(Tail(losses, u), u);
  }

  /** Expected shortfall is above that level exactly when some loss is. */
  lemma ShortfallAbove(losses: Vec)
    requires losses != []
    ensures Shortfall(losses) <= UpperLevel(losses) <==> forall i :: 0 <= i < |losses| ==> losses[i] <= UpperLevel(losses)
  {
    var u := UpperLevel(losses);
    UpperTail(losses);
    ReachesUpper(losses, 0);
    if i :| 0 <= i < |losses| && losses[i] > u {
      TailMeanAbove(losses, u, i);
    } else if Tail(losses, u) != [] {
      TailMeanBelow(losses, u);
    }
  }

  lemma {:induction false} WholeTail(losses: Vec, t: real)
    requires forall i :: 0 <= i < |losses| ==> losses[i] >= t
    ensures Tail(losses, t) == losses
  {
    if losses != [] {
      WholeTail(losses[1..], t);
    }
  }

  lemma {:induction false} TailNoLonger(losses: Vec, t: real)
    ensures |Tail(losses, t)| <= |losses|
  {
    if losses != [] {
      TailNoLonger(losses[1..], t);
    }
  }

  lemma UpperLevelRises(losses: Vec, higher: Vec)
    requires losses != [] && Below(losses, higher)
    ensures UpperLevel(losses) <= UpperLevel(higher)
  {
    SortedDominates(losses, higher);
  }

  lemma SettledCannotFall(losses: Vec, higher: Vec)
    requires losses != [] && Below(losses, higher) && Settled(losses)
    ensures Shortfall(losses) <= Shortfall(higher)
  {
    if forall i :: 0 <= i < |losses| ==> losses[i] >= UpperLevel(losses) {
      UpperTail(losses);
      WholeTail(losses, UpperLevel(losses));
      TailNoLonger(higher, Level(higher));
      TailEmpty(losses);
      TailEmpty(higher);
      NarrowerTailMean(losses, higher, Level(losses), Level(higher));
    } else {
      ShortfallAbove(losses);
      ShortfallReachesUpper(higher);
      UpperLevelRises(losses, higher);
    }
  }

  // ----- where one can -----

  lemma {:induction false} CountRaised(s: Vec, i: nat, x: real, y: real)
    requires i < |s| && s[i] <= y && x <= y
    ensures CountLe(s[i := x], y) == CountLe(s, y)
  {
    if i > 0 {
      assert s[i := x][1..] == s[1..][i - 1 := x];
      CountRaised(s[1..], i - 1, x, y);
    } else {
      assert s[i := x][1..] == s[1..];
    }
  }

  lemma {:induction false} TailJoined(s: Vec, i: nat, t: real)
    requires i < |s| && s[i] < t
    ensures |Tail(s[i := t], t)| == |Tail(s, t)| + 1
    ensures Sum(Tail(s[i := t], t)) == Sum(Tail(s, t)) + t
  {
    var head := if s[0] >= t then [s[0]] else [];
    if i > 0 {
      var raised := s[i := t];
      assert raised[0] == s[0] && raised[1..] == s[1..][i - 1 := t];
      TailJoined(s[1..], i - 1, t);
      assert Tail(raised, t) == head + Tail(raised[1..], t);
      SumHead(head, Tail(s[1..], t));
      SumHead(head, Tail(raised[1..], t));
    } else {
      assert s[i := t][1..] == s[1..];
      SumHead([t], Tail(s[1..], t));
      SumHead([], Tail(s[1..], t));
    }
  }

  lemma SumHead(head: Vec, rest: Vec)
    requires |head| <= 1
    ensures Sum(head + rest) == (if head == [] then 0.0 else head[0]) + Sum(rest)
  {
    if head == [] {
      assert head + rest == rest;
    } else {
      assert (head + rest)[1..] == rest;
    }
  }

  lemma ThinnerMean(total: real, n: real, t: real)
    requires n >= 1.0 && total / n > t
    ensures (total + t) / (n + 1.0) < total / n
  {
    var x, y := total / n, (total + t) / (n + 1.0);
    Quotient(total, n);
    Quotient(total + t, n + 1.0);
    assert x * (n + 1.0) == x * n + x;
    if y >= x {
      MulMonotone(x, y, n + 1.0);
    }
  }

  /** Raised to the upper neighbour, a loss outside the tail joins it and no other leaves. */
  lemma RaisedTail(losses: Vec, i: nat)
    requires i < |losses| && losses[i] < Level(losses)
    ensures var raised := losses[i := UpperLevel(losses)];
      Below(losses, raised) && Tail(raised, Level(raised)) == Tail(raised, UpperLevel(losses))
  {
    var u, m := UpperLevel(losses), UpperPlace(|losses|, 0.99);
    var raised := losses[i := u];
    ReachesUpper(losses, i);
    SortedStatistic(losses, m, u);
    CountRaised(losses, i, u, u);
    SortedStatistic(raised, m, u);
    QuantileBelow(losses, raised, 0.99);
    forall j | 0 <= j < |raised|
      ensures raised[j] >= Level(raised) <==> raised[j] >= u
    {
      ReachesUpper(raised, j);
      ReachesUpper(losses, j);
    }
    SameTail(raised, Level(raised), u);
  }

  lemma RaisedLowers(losses: Vec, i: nat)
    requires i < |losses| && losses[i] < Level(losses) && Shortfall(losses) > UpperLevel(losses)
    ensures Shortfall(losses[i := UpperLevel(losses)]) < Shortfall(losses)
  {
    var u := UpperLevel(losses);
    var raised, tail := losses[i := u], Tail(losses, u);
    UpperTail(losses);
    ReachesUpper(losses, i);
    RaisedTail(losses, i);
    TailJoined(losses, i, u);
    assert tail != [];
    ThinnerMean(Sum(tail), |tail| as real, u);
  }

  /**
   * No P&L that is nowhere better reports less expected shortfall, exactly when every loss reaches the sorted loss just
   * above VaR99, floored at zero, or none exceeds it.
   */
  lemma ShortfallMonotoneExactly(pnl: Vec)
    requires pnl != []
    ensures (forall worse :: Below(worse, pnl) ==> VarEsFromHistoricalPnl(Some(pnl)).es99 <= VarEsFromHistoricalPnl(Some(worse)).es99)
      <==> Settled(Negate(pnl))
  {
    ReportedShortfall(pnl);
    if Settled(Negate(pnl)) {
      forall worse | Below(worse, pnl)
        ensures VarEsFromHistoricalPnl(Some(pnl)).es99 <= VarEsFromHistoricalPnl(Some(worse)).es99
      {
        ReportedShortfall(worse);
        SettledCannotFall(Negate(pnl), Negate(worse));
      }
    } else {
      var worse := LoweringBook(pnl);
      ReportedShortfall(worse);
    }
  }

  lemma ReportedShortfall(pnl: Vec)
    requires pnl != []
    ensures VarEsFromHistoricalPnl(Some(pnl)).es99 == Shortfall(Negate(pnl))
  {
  }

  lemma LoweringBook(pnl: Vec) returns (worse: Vec)
    requires pnl != [] && !Settled(Negate(pnl))
    ensures Below(worse, pnl) && Shortfall(Negate(worse)) < Shortfall(Negate(pnl))
  {
    var losses := Negate(pnl);
    var i :| 0 <= i < |losses| && losses[i] < UpperLevel(losses);
    ReachesUpper(losses, i);
    ShortfallAbove(losses);
    var raised := losses[i := UpperLevel(losses)];
    RaisedTail(losses, i);
    RaisedLowers(losses, i);
    NegateTwice(raised);
    worse := Negate(raised);
  }
}
