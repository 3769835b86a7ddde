/**
 * Expected-shortfall contributions by position, hierarchy label and factor family (risk/es.py).
 */
module EsContributions {
  import opened RealMath
  import opened Vectors
  import opened Quantiles
  import opened HistoricalVar
  import opened HistoricalEngine

  type Mask = seq<bool>

  datatype TailMask = TailMask(value: real, mask: Mask)

  function Reaching(losses: Vec, value: real): (r: Mask)
    ensures |r| == |losses|
  {
    seq(|losses|, i requires 0 <= i < |losses| => losses[i] >= value)
  }

  /** VaR at the confidence and the scenarios reaching it; every scenario, when none does. */
  function TailMaskOf(losses: Vec, confidence: real): (r: TailMask)
    requires 0.0 <= confidence <= 1.0
    ensures |r.mask| == |losses|
  {
    if losses == [] then TailMask(0.0, [])
    else
      var value := Max(0.0, Quantile(losses, confidence));
      var mask := Reaching(losses, value);
      TailMask(value, if true in mask then mask else seq(|losses|, _ => true))
  }

  /** The entries of x the mask selects. */
  function Pick(x: Vec, mask: Mask): Vec
    requires |x| == |mask|
  {
    if x == [] then [] else (if mask[0] then [x[0]] else []) + Pick(x[1..], mask[1..])
  }

  function TailMeanLoss(pnl: Vec, mask: Mask): real
    requires |pnl| == |mask|
  {
    var picked := Pick(Negate(pnl), mask);
    if picked == [] then 0.0 else Mean(picked)
  }

  /** The component each P&L series contributes. */
  function Contributions(pnls: seq<Vec>, mask: Mask): (r: Vec)
    requires Aligned(pnls, |mask|)
    ensures |r| == |pnls|
  {
    seq(|pnls|, k requires 0 <= k < |pnls| => TailMeanLoss(pnls[k], mask))
  }

  function PortfolioEs(losses: Vec, tail: TailMask): real
    requires |losses| == |tail.mask|
  {
    var picked := Pick(losses, tail.mask);
    Max(tail.value, if picked == [] then tail.value else Mean(picked))
  }

  // ----- the tail mean is linear -----

  lemma {:induction false} PickLength(x: Vec, y: Vec, mask: Mask)
    requires |x| == |y| == |mask|
    ensures |Pick(x, mask)| == |Pick(y, mask)|
    ensures Pick(x, mask) == [] <==> !(true in mask)
  {
    if x != [] {
      PickLength(x[1..], y[1..], mask[1..]);
      assert mask == [mask[0]] + mask[1..];
    }
  }

  lemma {:induction false} PickAdd(x: Vec, y: Vec, mask: Mask)
    requires |x| == |y| == |mask|
    ensures Sum(Pick(Add(x, y), mask)) == Sum(Pick(x, mask)) + Sum(Pick(y, mask))
  {
    if x != [] {
      assert Add(x, y)[1..] == Add(x[1..], y[1..]);
      PickAdd(x[1..], y[1..], mask[1..]);
      PickHead(x, mask);
      PickHead(y, mask);
      PickHead(Add(x, y), mask);
    }
  }

  lemma PickHead(x: Vec, mask: Mask)
    requires |x| == |mask| >= 1
    ensures Sum(Pick(x, mask)) == (if mask[0] then x[0] else 0.0) + Sum(Pick(x[1..], mask[1..]))
  {
    if mask[0] {
      assert Pick(x, mask)[1..] == Pick(x[1..], mask[1..]);
    } else {
      assert Pick(x, mask) == Pick(x[1..], mask[1..]);
    }
  }

  lemma TailMeanAdd(x: Vec, y: Vec, mask: Mask)
    requires |x| == |y| == |mask|
    ensures TailMeanLoss(Add(x, y), mask) == TailMeanLoss(x, mask) + TailMeanLoss(y, mask)
  {
    assert Negate(Add(x, y)) == Add(Negate(x), Negate(y));
    PickAdd(Negate(x), Negate(y), mask);
    PickLength(Negate(x), Negate(y), mask);
    PickLength(Negate(x), Negate(Add(x, y)), mask);
    var n := |Pick(Negate(x), mask)|;
    if n > 0 {
      QuotientAdds(Sum(Pick(Negate(x), mask)), Sum(Pick(Negate(y), mask)), Sum(Pick(Negate(Add(x, y)), mask)), n as real);
    }
  }

  lemma {:induction false} PickZeros(n: nat, mask: Mask)
    requires |mask| == n
    ensures Sum(Pick(Zeros(n), mask)) == 0.0
  {
    if n > 0 {
      assert Zeros(n)[1..] == Zeros(n - 1);
      PickZeros(n - 1, mask[1..]);
      PickHead(Zeros(n), mask);
    }
  }

  /** However a P&L is split, the split's contributions sum to the contribution of the whole. */
  lemma {:induction false} ContributionsSum(pnls: seq<Vec>, mask: Mask)
    requires Aligned(pnls, |mask|)
    ensures Sum(Contributions(pnls, mask)) == TailMeanLoss(Total(pnls, |mask|), mask)
  {
    var n := |mask|;
    if pnls == [] {
      assert Negate(Zeros(n)) == Zeros(n);
      PickZeros(n, mask);
      var m := |Pick(Zeros(n), mask)|;
      if m > 0 {
        QuotientIs(0.0, m as real, 0.0);
      }
    } else {
      assert Contributions(pnls, mask)[1..] == Contributions(pnls[1..], mask);
      ContributionsSum(pnls[1..], mask);
      TailMeanAdd(pnls[0], Total(pnls[1..], n), mask);
    }
  }

  // ----- reconciliation with portfolio ES -----

  lemma {:induction false} PickAtLeast(losses: Vec, value: real)
    ensures forall k :: 0 <= k < |Pick(losses, Reaching(losses, value))| ==> Pick(losses, Reaching(losses, value))[k] >= value
  {
    if losses != [] {
      assert Reaching(losses, value)[1..] == Reaching(losses[1..], value);
      PickAtLeast(losses[1..], value);
    }
  }

  lemma {:induction false} PickAll(x: Vec, mask: Mask)
    requires |x| == |mask| && forall i :: 0 <= i < |mask| ==> mask[i]
    ensures Pick(x, mask) == x
  {
    if x != [] {
      PickAll(x[1..], mask[1..]);
    }
  }

  lemma MeanNegative(x: Vec)
    requires x != [] && forall i :: 0 <= i < |x| ==> x[i] < 0.0
    ensures Mean(x) < 0.0
  {
    SumNegative(x);
    var n, total := |x| as real, Sum(x);
    Quotient(total, n);
    if total / n >= 0.0 {
      ProductNonNegative(total / n, n, total);
      assert false;
    }
  }

  lemma {:induction false} SumNegative(x: Vec)
    requires x != [] && forall i :: 0 <= i < |x| ==> x[i] < 0.0
    ensures Sum(x) < 0.0
  {
    if |x| > 1 {
      SumNegative(x[1..]);
    }
  }

  /** The threshold is reached exactly when some scenario does not make money. */
  lemma MaskReached(losses: Vec, confidence: real)
    requires losses != [] && 0.0 <= confidence <= 1.0
    ensures true in Reaching(losses, Max(0.0, Quantile(losses, confidence)))
      <==> exists i :: 0 <= i < |losses| && losses[i] >= 0.0
  {
    var value := Max(0.0, Quantile(losses, confidence));
    var mask := Reaching(losses, value);
    var k := QuantileReached(losses, confidence);
    if i :| 0 <= i < |losses| && losses[i] >= 0.0 {
      var j := if value == 0.0 then i else k;
      assert mask[j];
    }
  }

  /**
   * Contributions of any split of the book's P&L add up to portfolio ES exactly when some scenario does
   * not make money. Otherwise ES is zero, and the contributions fall short of it by minus the mean loss.
   */
  lemma ContributionsReconcile(pnls: seq<Vec>, n: nat, confidence: real)
    requires Aligned(pnls, n) && n > 0 && 0.0 <= confidence <= 1.0
    ensures var losses := Negate(Total(pnls, n));
      var tail := TailMaskOf(losses, confidence);
      var es, parts := PortfolioEs(losses, tail), Sum(Contributions(pnls, tail.mask));
      && (parts == es <==> exists i :: 0 <= i < n && losses[i] >= 0.0)
      && (parts != es ==> es == 0.0 && es - parts == -Mean(losses) > 0.0)
  {
    var losses := Negate(Total(pnls, n));
    var tail := TailMaskOf(losses, confidence);
    var value := Max(0.0, Quantile(losses, confidence));
    var mask := Reaching(losses, value);
    ContributionsSum(pnls, tail.mask);
    MaskReached(losses, confidence);
    PickLength(losses, losses, tail.mask);
    if true in mask {
      PickAtLeast(losses, value);
      MeanAtLeast(Pick(losses, mask), value);
    } else {
      assert tail.mask[0];
      var k := QuantileReached(losses, confidence);
      PickAll(losses, tail.mask);
      MeanNegative(losses);
    }
  }

  lemma {:induction false} PickIsTail(losses: Vec, value: real)
    ensures Pick(losses, Reaching(losses, value)) == Tail(losses, value)
  {
    if losses != [] {
      assert Reaching(losses, value)[1..] == Reaching(losses[1..], value);
      PickIsTail(losses[1..], value);
    }
  }

  /** The portfolio ES the contributions are measured against is the ES the engine and the hierarchy report, and so is the VaR beside it. */
  lemma EsAgrees(losses: Vec)
    requires losses != []
    ensures var tail := TailMaskOf(losses, 0.99);
      tail.value == VarEsOfLosses(losses).var99 && PortfolioEs(losses, tail) == VarEsOfLosses(losses).es99
  {
    var value := Max(0.0, Quantile(losses, 0.99));
    var mask := Reaching(losses, value);
    PickIsTail(losses, value);
    PickLength(losses, losses, mask);
    MaskReached(losses, 0.99);
    if true in mask {
      TailReaches(losses, value);
      MeanAtLeast(Tail(losses, value), value);
    } else {
      var all := TailMaskOf(losses, 0.99).mask;
      PickAll(losses, all);
      MeanNegative(losses);
    }
  }

  // ----- rolling positions up to books, desks and strategies -----

  /** P&L by label, labels in the order they are first met. */
  datatype Rollup = Rollup(labels: seq<string>, pnl: map<string, Vec>)

  ghost predicate IsRollup(r: Rollup, n: nat) {
    && (forall i, j :: 0 <= i < j < |r.labels| ==> r.labels[i] != r.labels[j])
    && (forall l :: l in r.pnl <==> l in r.labels)
    && (forall l :: l in r.pnl ==> |r.pnl[l]| == n)
  }

  function Series(r: Rollup): (xs: seq<Vec>)
    requires forall l :: l in r.labels ==> l in r.pnl
    ensures |xs| == |r.labels|
  {
    seq(|r.labels|, i requires 0 <= i < |r.labels| => r.pnl[r.labels[i]])
  }

  /** The series of the positions carrying a label. */
  function Labelled(name: string, labels: seq<string>, pnls: seq<Vec>): seq<Vec>
    requires |labels| == |pnls|
  {
    if labels == [] then []
    else (if labels[0] == name then [pnls[0]] else []) + Labelled(name, labels[1..], pnls[1..])
  }

  lemma {:induction false} LabelledAligned(name: string, labels: seq<string>, pnls: seq<Vec>, n: nat)
    requires |labels| == |pnls| && Aligned(pnls, n)
    ensures Aligned(Labelled(name, labels, pnls), n)
  {
    if labels != [] {
      LabelledAligned(name, labels[1..], pnls[1..], n);
    }
  }

  lemma {:induction false} LabelledSnoc(name: string, labels: seq<string>, pnls: seq<Vec>, l: string, x: Vec)
    requires |labels| == |pnls|
    ensures Labelled(name, labels + [l], pnls + [x])
         == Labelled(name, labels, pnls) + if l == name then [x] else []
  {
    if labels == [] {
      assert [l][1..] == [] && [x][1..] == [];
      assert Labelled(name, [l], [x]) == if l == name then [x] else [];
    } else {
      LabelledSnoc(name, labels[1..], pnls[1..], l, x);
      assert (labels + [l])[1..] == labels[1..] + [l] && (pnls + [x])[1..] == pnls[1..] + [x];
    }
  }

  lemma TotalSnoc(xs: seq<Vec>, x: Vec, n: nat)
    requires Aligned(xs, n) && |x| == n
    ensures Total(xs + [x], n) == Add(Total(xs, n), x)
  {
    TotalAppend(xs, [x], n);
    assert [x][1..] == [];
    assert Add(x, Zeros(n)) == x;
  }

  lemma {:induction false} TotalUpdate(xs: seq<Vec>, i: nat, x: Vec, n: nat)
    requires Aligned(xs, n) && i < |xs| && |x| == n
    ensures Total(xs[i := Add(xs[i], x)], n) == Add(Total(xs, n), x)
  {
    var ys := xs[i := Add(xs[i], x)];
    if i == 0 {
      assert ys[1..] == xs[1..];
    } else {
      assert ys[1..] == xs[1..][i - 1 := Add(xs[1..][i - 1], x)];
      TotalUpdate(xs[1..], i - 1, x, n);
    }
  }

  /** What a finished rollup of these positions says. */
  ghost predicate RollsUp(r: Rollup, labels: seq<string>, pnls: seq<Vec>, n: nat)
    requires |labels| == |pnls| && Aligned(pnls, n)
  {
    && IsRollup(r, n)
    && (forall l :: l in r.labels <==> l in labels)
    && (forall l :: l in r.pnl ==>
          Aligned(Labelled(l, labels, pnls), n) && r.pnl[l] == Total(Labelled(l, labels, pnls), n))
    && Aligned(Series(r), n)
    && Total(Series(r), n) == Total(pnls, n)
  }

  /** The accumulation of report(): add each position's series to its label's. */
  method RollUp(labels: seq<string>, pnls: seq<Vec>, n: nat) returns (r: Rollup)
    requires |labels| == |pnls| && Aligned(pnls, n)
    ensures RollsUp(r, labels, pnls, n)
  {
    r := Rollup([], map[]);
    for k := 0 to |labels|
      invariant RollsUp(r, labels[..k], pnls[..k], n)
    {
      var next := Accumulate(r, labels[k], pnls[k], n);
      RollUpStep(r, next, labels[..k], pnls[..k], labels[k], pnls[k], n);
      assert labels[..k + 1] == labels[..k] + [labels[k]];
      assert pnls[..k + 1] == pnls[..k] + [pnls[k]];
      r := next;
    }
    assert labels[..|labels|] == labels && pnls[..|labels|] == pnls;
  }

  /** One += into the defaultdict of zero vectors. */
  method Accumulate(before: Rollup, l: string, x: Vec, n: nat) returns (r: Rollup)
    requires IsRollup(before, n) && |x| == n
    ensures r == Accumulated(before, l, x, n)
  {
    r := before;
    if l !in r.pnl {
      r := Rollup(r.labels + [l], r.pnl[l := Zeros(n)]);
    }
    r := r.(pnl := r.pnl[l := Add(r.pnl[l], x)]);
  }

  ghost function Accumulated(r: Rollup, l: string, x: Vec, n: nat): Rollup
    requires IsRollup(r, n) && |x| == n
  {
    if l in r.pnl then r.(pnl := r.pnl[l := Add(r.pnl[l], x)])
    else Rollup(r.labels + [l], r.pnl[l := Add(Zeros(n), x)])
  }

  lemma RollUpStep(before: Rollup, after: Rollup, labels: seq<string>, pnls: seq<Vec>, l: string, x: Vec, n: nat)
    requires |labels| == |pnls| && Aligned(pnls, n) && |x| == n
    requires RollsUp(before, labels, pnls, n) && after == Accumulated(before, l, x, n)
    ensures RollsUp(after, labels + [l], pnls + [x], n)
  {
    AccumulatedTotal(before, after, l, x, n);
    TotalSnoc(pnls, x, n);
    forall m | m in after.pnl
      ensures Aligned(Labelled(m, labels + [l], pnls + [x]), n)
      ensures after.pnl[m] == Total(Labelled(m, labels + [l], pnls + [x]), n)
    {
      AccumulatedEntry(before, after, labels, pnls, l, x, n, m);
    }
    forall m
      ensures m in after.labels <==> m in labels + [l]
    {
      assert m in after.labels <==> m in before.labels || m == l;
    }
  }

  lemma AccumulatedTotal(before: Rollup, after: Rollup, l: string, x: Vec, n: nat)
    requires IsRollup(before, n) && |x| == n && after == Accumulated(before, l, x, n)
    ensures IsRollup(after, n)
    ensures Aligned(Series(before), n) && Aligned(Series(after), n)
    ensures Total(Series(after), n) == Add(Total(Series(before), n), x)
  {
    if i :| 0 <= i < |before.labels| && before.labels[i] == l {
      assert Series(after) == Series(before)[i := Add(Series(before)[i], x)];
      TotalUpdate(Series(before), i, x, n);
    } else {
      assert Add(Zeros(n), x) == x;
      assert Series(after) == Series(before) + [x];
      TotalSnoc(Series(before), x, n);
    }
  }

  lemma AccumulatedEntry(before: Rollup, after: Rollup, labels: seq<string>, pnls: seq<Vec>, l: string, x: Vec, n: nat, m: string)
    requires |labels| == |pnls| && Aligned(pnls, n) && |x| == n
    requires RollsUp(before, labels, pnls, n) && after == Accumulated(before, l, x, n) && m in after.pnl
    ensures Aligned(Labelled(m, labels + [l], pnls + [x]), n)
    ensures after.pnl[m] == Total(Labelled(m, labels + [l], pnls + [x]), n)
  {
    var some := Labelled(m, labels, pnls);
    LabelledAligned(m, labels, pnls, n);
    LabelledSnoc(m, labels, pnls, l, x);
    if m == l {
      TotalSnoc(some, x, n);
      if m !in before.pnl {
        NoneLabelled(m, labels, pnls);
      }
    } else {
      assert some + [] == some;
    }
  }

  lemma {:induction false} NoneLabelled(name: string, labels: seq<string>, pnls: seq<Vec>)
    requires |labels| == |pnls| && name !in labels
    ensures Labelled(name, labels, pnls) == []
  {
    if labels != [] {
      NoneLabelled(name, labels[1..], pnls[1..]);
    }
  }

  /** A rollup by any label reconciles exactly as the positions do. */
  lemma RollupReconciles(r: Rollup, labels: seq<string>, pnls: seq<Vec>, n: nat, mask: Mask)
    requires |labels| == |pnls| && Aligned(pnls, n) && |mask| == n
    requires RollsUp(r, labels, pnls, n)
    ensures Sum(Contributions(Series(r), mask)) == Sum(Contributions(pnls, mask))
  {
    ContributionsSum(Series(r), mask);
    ContributionsSum(pnls, mask);
  }
}
