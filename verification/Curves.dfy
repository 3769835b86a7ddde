/** Yield curves, linear in continuous zeros (market/curves.py). */
module Curves {
  import opened Wrappers
  import opened Strings
  import opened RealMath
  import opened Vectors

  datatype CurveType = Discount | Projection

  datatype CurveNode = CurveNode(tenor: string, years: real, zeroRate: real)

  datatype YieldCurve = YieldCurve(currency: string, curveType: CurveType, name: string, nodes: seq<CurveNode>)

  const TENOR_YEARS: map<string, real> :=
    map["1Y" := 1.0, "2Y" := 2.0, "5Y" := 5.0, "7Y" := 7.0, "10Y" := 10.0, "20Y" := 20.0, "30Y" := 30.0]

  function UnitYears(unit: char, amount: real): Option<real> {
    if unit == 'D' then Some(amount / 365.0)
    else if unit == 'W' then Some(amount * 7.0 / 365.0)
    else if unit == 'M' then Some(amount / 12.0)
    else if unit == 'Y' then Some(amount)
    else None
  }

  /** None where the source raises ValueError. */
  function TenorToYears(tenor: string): (r: Option<real>)
    ensures r.Some? ==> r.value > 0.0
  {
    var key := Upper(Strip(tenor));
    if key in TENOR_YEARS then
      assert TENOR_YEARS[key] > 0.0;
      Some(TENOR_YEARS[key])
    else if |key| < 2 then None
    else
      match ParseDecimal(key[..|key| - 1])
      case None => None
      case Some(amount) =>
        match UnitYears(key[|key| - 1], amount)
        case None => None
        case Some(years) => if years <= 0.0 then None else Some(years)
  }

  predicate Increasing(years: Vec) {
    forall i, j :: 0 <= i < j < |years| ==> years[i] < years[j]
  }

  function Years(nodes: seq<CurveNode>): (r: Vec)
    ensures |r| == |nodes|
  {
    seq(|nodes|, i requires 0 <= i < |nodes| => nodes[i].years)
  }

  function Rates(nodes: seq<CurveNode>): (r: Vec)
    ensures |r| == |nodes|
  {
    seq(|nodes|, i requires 0 <= i < |nodes| => nodes[i].zeroRate)
  }

  /** What the constructor accepts. */
  predicate ValidNodes(nodes: seq<CurveNode>) {
    nodes != [] && Increasing(Years(nodes))
  }

  // ----- interpolation -----

  /** The first pair of pillars around t. */
  function Segment(years: Vec, k: nat, t: real): (s: nat)
    requires k + 1 < |years| && years[k] < t < years[|years| - 1]
    ensures k <= s && s + 1 < |years| && years[s] < t <= years[s + 1]
    decreases |years| - k
  {
    if t <= years[k + 1] then k else Segment(years, k + 1, t)
  }

  function Weight(left: real, right: real, t: real): real
    requires left < right
  {
    (t - left) / (right - left)
  }

  /** The zero rate at t: flat outside the pillars, linear between them. */
  function Interpolate(years: Vec, rates: Vec, t: real): real
    requires years != [] && Increasing(years) && |rates| == |years|
  {
    var last := |years| - 1;
    if t <= years[0] then rates[0]
    else if t >= years[last] then rates[last]
    else
      var k := Segment(years, 0, t);
      Lerp(rates[k], rates[k + 1], Weight(years[k], years[k + 1], t))
  }

  function ZeroAt(c: YieldCurve, t: real): Result<real, string>
    requires ValidNodes(c.nodes)
  {
    if t < 0.0 then Err("t must be >= 0") else Ok(Interpolate(Years(c.nodes), Rates(c.nodes), t))
  }

  /** YieldCurve.zero: the scan over adjacent pillars. */
  method Zero(c: YieldCurve, t: real) returns (r: Result<real, string>)
    requires ValidNodes(c.nodes)
    ensures r == ZeroAt(c, t)
  {
    var nodes := c.nodes;
    ghost var years := Years(nodes);
    if t < 0.0 {
      return Err("t must be >= 0");
    }
    if t <= nodes[0].years {
      return Ok(nodes[0].zeroRate);
    }
    var last := nodes[|nodes| - 1];
    if t >= last.years {
      return Ok(last.zeroRate);
    }
    var i := 0;
    while i + 1 < |nodes|
      invariant 0 <= i < |nodes| && years[i] < t
      invariant i + 1 < |nodes| ==> Segment(years, 0, t) == Segment(years, i, t)
    {
      var left, right := nodes[i], nodes[i + 1];
      if left.years <= t <= right.years {
        assert Segment(years, i, t) == i;
        return Ok(Lerp(left.zeroRate, right.zeroRate, Weight(left.years, right.years, t)));
      }
      i := i + 1;
    }
    r := Ok(last.zeroRate);
  }

  function DiscountBy(zero: real, years: real, exp: real -> real): real {
    exp(-zero * years)
  }

  /** YieldCurve.df, for an exponential function exp. */
  function DiscountAt(c: YieldCurve, t: real, exp: real -> real): Result<real, string>
    requires ValidNodes(c.nodes)
  {
    if t < 0.0 then Err("t must be >= 0")
    else if t == 0.0 then Ok(1.0)
    else Ok(DiscountBy(Interpolate(Years(c.nodes), Rates(c.nodes), t), t, exp))
  }

  // ----- shifts -----

  function BpsToDecimalRate(bps: real): real { bps / 10000.0 }

  /** Is the node one that a shift of this tenor moves? No tenor stands for every one. */
  predicate Carries(n: CurveNode, tenor: Option<string>) {
    tenor.None? || tenor.value == n.tenor
  }

  function ShiftNode(n: CurveNode, tenor: Option<string>, a: real): CurveNode {
    if Carries(n, tenor) then n.(zeroRate := n.zeroRate + a) else n
  }

  function ShiftNodes(nodes: seq<CurveNode>, tenor: Option<string>, a: real): (r: seq<CurveNode>)
    ensures |r| == |nodes|
  {
    seq(|nodes|, i requires 0 <= i < |nodes| => ShiftNode(nodes[i], tenor, a))
  }

  function ParallelShiftBps(c: YieldCurve, bps: real): YieldCurve {
    c.(nodes := ShiftNodes(c.nodes, None, BpsToDecimalRate(bps)))
  }

  function KeyRateShiftBps(c: YieldCurve, tenor: string, bps: real): Result<YieldCurve, string> {
    if tenor !in TENOR_YEARS then Err("unknown key tenor")
    else Ok(c.(nodes := ShiftNodes(c.nodes, Some(tenor), BpsToDecimalRate(bps))))
  }

  function AddAll(x: Vec, a: real): (r: Vec)
    ensures |r| == |x|
  {
    seq(|x|, i requires 0 <= i < |x| => x[i] + a)
  }

  function AddAt(x: Vec, i: nat, a: real): (r: Vec)
    requires i < |x|
    ensures |r| == |x|
  {
    x[i := x[i] + a]
  }

  /** The tent of pillar i: 1 at its own maturity, 0 from the neighbours on, flat beyond the ends of the curve. */
  function Hat(years: Vec, i: nat, t: real): real
    requires Increasing(years) && i < |years|
  {
    if t <= years[i] then
      if i == 0 then 1.0
      else if t <= years[i - 1] then 0.0
      else Weight(years[i - 1], years[i], t)
    else
      if i == |years| - 1 then 1.0
      else if t >= years[i + 1] then 0.0
      else 1.0 - Weight(years[i], years[i + 1], t)
  }

  lemma WeightBetween(left: real, right: real, t: real)
    requires left < t <= right
    ensures 0.0 < Weight(left, right, t) <= 1.0
    ensures t == right ==> Weight(left, right, t) == 1.0
  {
    var n, d, w := t - left, right - left, Weight(left, right, t);
    Quotient(n, d);
    if w <= 0.0 {
      MulMonotone(w, 0.0, d);
      assert false;
    }
    MulCancel(w, 1.0, d);
    if t == right {
      QuotientIs(n, d, 1.0);
    }
  }

  lemma HatBounded(years: Vec, i: nat, t: real)
    requires Increasing(years) && i < |years|
    ensures 0.0 <= Hat(years, i, t) <= 1.0
    ensures Hat(years, i, years[i]) == 1.0
    ensures i > 0 && t <= years[i - 1] ==> Hat(years, i, t) == 0.0
    ensures i + 1 < |years| && t >= years[i + 1] ==> Hat(years, i, t) == 0.0
  {
    if i > 0 {
      WeightBetween(years[i - 1], years[i], years[i]);
      if years[i - 1] < t <= years[i] {
        WeightBetween(years[i - 1], years[i], t);
      }
    }
    if i + 1 < |years| && years[i] < t < years[i + 1] {
      WeightBetween(years[i], years[i + 1], t);
    }
  }

  lemma LerpLeftBumped(p: real, q: real, a: real, w: real)
    ensures Lerp(p + a, q, w) == Lerp(p, q, w) + a * (1.0 - w)
  {
    assert w * (q - (p + a)) == w * (q - p) - w * a;
  }

  lemma LerpRightBumped(p: real, q: real, a: real, w: real)
    ensures Lerp(p, q + a, w) == Lerp(p, q, w) + a * w
  {
    assert w * (q + a - p) == w * (q - p) + w * a;
  }

  lemma InsideBump(years: Vec, rates: Vec, i: nat, a: real, t: real, k: nat, h: real)
    requires Increasing(years) && |rates| == |years| && i < |years| && k + 1 < |years| && years[k] < t <= years[k + 1]
    requires h == Hat(years, i, t)
    ensures var w := Weight(years[k], years[k + 1], t);
      Lerp(AddAt(rates, i, a)[k], AddAt(rates, i, a)[k + 1], w) == Lerp(rates[k], rates[k + 1], w) + a * h
  {
    var w := Weight(years[k], years[k + 1], t);
    WeightBetween(years[k], years[k + 1], t);
    if i == k {
      LerpLeftBumped(rates[k], rates[k + 1], a, w);
      HatAtLeft(years, k, t);
    } else if i == k + 1 {
      LerpRightBumped(rates[k], rates[k + 1], a, w);
    } else {
      SegmentOutside(years, k, i, t);
      MulZero(a, h);
    }
  }

  lemma HatAtLeft(years: Vec, k: nat, t: real)
    requires Increasing(years) && k + 1 < |years| && years[k] < t <= years[k + 1]
    ensures Hat(years, k, t) == 1.0 - Weight(years[k], years[k + 1], t)
  {
    WeightBetween(years[k], years[k + 1], t);
  }

  /** Bumping one pillar moves the curve by its tent h. */
  lemma PillarBump(years: Vec, rates: Vec, i: nat, a: real, t: real, h: real)
    requires years != [] && Increasing(years) && |rates| == |years| && i < |years|
    requires h == Hat(years, i, t)
    ensures Interpolate(years, AddAt(rates, i, a), t) == Interpolate(years, rates, t) + a * h
  {
    if years[0] < t < years[|years| - 1] {
      InsideBump(years, rates, i, a, t, Segment(years, 0, t), h);
    } else {
      EndHats(years, i, t);
      MulZero(a, 0.0);
    }
  }

  lemma SegmentOutside(years: Vec, k: nat, i: nat, t: real)
    requires Increasing(years) && k + 1 < |years| && i < |years| && i != k && i != k + 1
    requires years[k] < t <= years[k + 1]
    ensures Hat(years, i, t) == 0.0
  {
    if i < k {
      assert years[i + 1] <= years[k];
    } else {
      assert years[k + 1] <= years[i - 1];
    }
  }

  lemma EndHats(years: Vec, i: nat, t: real)
    requires Increasing(years) && i < |years|
    ensures t <= years[0] ==> Hat(years, i, t) == if i == 0 then 1.0 else 0.0
    ensures t > years[0] && t >= years[|years| - 1] ==> Hat(years, i, t) == if i == |years| - 1 then 1.0 else 0.0
  {
    var last := |years| - 1;
    if i > 0 {
      WeightBetween(years[i - 1], years[i], years[i]);
    }
    if t <= years[0] && i > 0 {
      assert years[0] <= years[i - 1];
    }
    if t >= years[last] && i < last {
      assert years[i + 1] <= years[last];
    }
  }

  /** Bumping every pillar moves the whole curve by the same amount: the parallel shift. */
  lemma ParallelMoves(years: Vec, rates: Vec, a: real, t: real)
    requires years != [] && Increasing(years) && |rates| == |years|
    ensures Interpolate(years, AddAll(rates, a), t) == Interpolate(years, rates, t) + a
  {
    if years[0] < t < years[|years| - 1] {
      var k := Segment(years, 0, t);
      var w := Weight(years[k], years[k + 1], t);
      assert w * (rates[k + 1] + a - (rates[k] + a)) == w * (rates[k + 1] - rates[k]);
    }
  }

  function Hats(years: Vec, t: real): (r: Vec)
    requires Increasing(years)
    ensures |r| == |years|
  {
    seq(|years|, i requires 0 <= i < |years| => Hat(years, i, t))
  }

  /** The first j pillars bumped in turn. */
  function BumpFirst(rates: Vec, j: nat, a: real): (r: Vec)
    requires j <= |rates|
    ensures |r| == |rates|
  {
    if j == 0 then rates else AddAt(BumpFirst(rates, j - 1, a), j - 1, a)
  }

  lemma {:induction false} BumpFirstEntries(rates: Vec, j: nat, a: real)
    requires j <= |rates|
    ensures forall i :: 0 <= i < |rates| ==> BumpFirst(rates, j, a)[i] == if i < j then rates[i] + a else rates[i]
  {
    if j > 0 {
      BumpFirstEntries(rates, j - 1, a);
    }
  }

  lemma OneMoreTerm(base: real, a: real, s: real, h: real, before: real, after: real, s': real)
    requires before == base + a * s && after == before + a * h && s' == s + h
    ensures after == base + a * s'
  {
    assert a * s' == a * s + a * h;
  }

  lemma BumpStep(years: Vec, rates: Vec, j: nat, a: real, t: real, h: real, z: real, z': real)
    requires years != [] && Increasing(years) && |rates| == |years| && j < |rates|
    requires h == Hat(years, j, t)
    requires z == Interpolate(years, BumpFirst(rates, j, a), t) && z' == Interpolate(years, BumpFirst(rates, j + 1, a), t)
    ensures z' == z + a * h
  {
    PillarBump(years, BumpFirst(rates, j, a), j, a, t, h);
  }

  lemma {:induction false} BumpFirstMoves(years: Vec, rates: Vec, j: nat, a: real, t: real, z: real, total: real)
    requires years != [] && Increasing(years) && |rates| == |years| && j <= |rates|
    requires z == Interpolate(years, BumpFirst(rates, j, a), t) && total == SumFirst(Hats(years, t), j)
    ensures z == Interpolate(years, rates, t) + a * total
  {
    if j == 0 {
      MulZero(a, total);
    } else {
      var before, h := Interpolate(years, BumpFirst(rates, j - 1, a), t), Hats(years, t)[j - 1];
      var s := SumFirst(Hats(years, t), j - 1);
      BumpFirstMoves(years, rates, j - 1, a, t, before, s);
      BumpStep(years, rates, j - 1, a, t, h, before, z);
      OneMoreTerm(Interpolate(years, rates, t), a, s, h, before, z, total);
    }
  }

  function SumFirst(x: Vec, j: nat): real
    requires j <= |x|
  {
    if j == 0 then 0.0 else SumFirst(x, j - 1) + x[j - 1]
  }

  lemma {:induction false} SumFirstIsSum(x: Vec, j: nat)
    requires j <= |x|
    ensures SumFirst(x, j) == Sum(x[..j])
  {
    if j > 0 {
      SumFirstIsSum(x, j - 1);
      assert x[..j] == x[..j - 1] + [x[j - 1]];
      SumAppend(x[..j - 1], [x[j - 1]]);
      assert [x[j - 1]][1..] == [];
    }
  }

  /** The tents sum to one at every maturity, the flat ends included. */
  lemma HatsSumToOne(years: Vec, t: real)
    requires years != [] && Increasing(years)
    ensures Sum(Hats(years, t)) == 1.0
  {
    var flat := Zeros(|years|);
    var total := SumFirst(Hats(years, t), |years|);
    BumpFirstMoves(years, flat, |years|, 1.0, t, Interpolate(years, BumpFirst(flat, |years|, 1.0), t), total);
    SumFirstIsSum(Hats(years, t), |years|);
    assert Hats(years, t)[..|years|] == Hats(years, t);
    BumpFirstEntries(flat, |years|, 1.0);
    assert BumpFirst(flat, |years|, 1.0) == AddAll(flat, 1.0);
    ParallelMoves(years, flat, 1.0, t);
  }

  /** Key-rate shifts of every pillar in turn are the parallel shift. */
  lemma BumpAllIsParallel(years: Vec, rates: Vec, a: real, t: real)
    requires years != [] && Increasing(years) && |rates| == |years|
    ensures BumpFirst(rates, |rates|, a) == AddAll(rates, a)
    ensures Interpolate(years, BumpFirst(rates, |rates|, a), t) == Interpolate(years, rates, t) + a
  {
    BumpFirstEntries(rates, |rates|, a);
    assert BumpFirst(rates, |rates|, a) == AddAll(rates, a);
    ParallelMoves(years, rates, a, t);
  }

  // ----- one tenor of a curve -----

  /** The tents of the first j nodes that carry the tenor, together. */
  function TentsOf(nodes: seq<CurveNode>, j: nat, tenor: Option<string>, t: real): real
    requires j <= |nodes| && Increasing(Years(nodes))
  {
    if j == 0 then 0.0
    else TentsOf(nodes, j - 1, tenor, t) + if Carries(nodes[j - 1], tenor) then Hats(Years(nodes), t)[j - 1] else 0.0
  }

  /** What a shift of this tenor by one moves the zero at t by. */
  function Tent(nodes: seq<CurveNode>, tenor: Option<string>, t: real): real
    requires Increasing(Years(nodes))
  {
    TentsOf(nodes, |nodes|, tenor, t)
  }

  /** The rates with the first j carriers moved. */
  function BumpCarriers(nodes: seq<CurveNode>, j: nat, tenor: Option<string>, a: real): (r: Vec)
    requires j <= |nodes|
    ensures |r| == |nodes|
  {
    if j == 0 then Rates(nodes)
    else
      var before := BumpCarriers(nodes, j - 1, tenor, a);
      if Carries(nodes[j - 1], tenor) then AddAt(before, j - 1, a) else before
  }

  lemma {:induction false} BumpCarriersEntries(nodes: seq<CurveNode>, j: nat, tenor: Option<string>, a: real)
    requires j <= |nodes|
    ensures forall i :: 0 <= i < |nodes| ==>
      BumpCarriers(nodes, j, tenor, a)[i] == if i < j then ShiftNode(nodes[i], tenor, a).zeroRate else nodes[i].zeroRate
  {
    if j > 0 {
      BumpCarriersEntries(nodes, j - 1, tenor, a);
    }
  }

  lemma CarrierStep(nodes: seq<CurveNode>, j: nat, tenor: Option<string>, a: real, t: real, h: real, z: real, z': real)
    requires ValidNodes(nodes) && j < |nodes| && Carries(nodes[j], tenor) && h == Hat(Years(nodes), j, t)
    requires z == Interpolate(Years(nodes), BumpCarriers(nodes, j, tenor, a), t)
    requires z' == Interpolate(Years(nodes), BumpCarriers(nodes, j + 1, tenor, a), t)
    ensures z' == z + a * h
  {
    PillarBump(Years(nodes), BumpCarriers(nodes, j, tenor, a), j, a, t, h);
  }

  lemma NextCarrier(nodes: seq<CurveNode>, j: nat, tenor: Option<string>, a: real, t: real, base: real, before: real, s: real, z: real, total: real)
    requires ValidNodes(nodes) && j < |nodes| && before == base + a * s
    requires before == Interpolate(Years(nodes), BumpCarriers(nodes, j, tenor, a), t) && s == TentsOf(nodes, j, tenor, t)
    requires z == Interpolate(Years(nodes), BumpCarriers(nodes, j + 1, tenor, a), t) && total == TentsOf(nodes, j + 1, tenor, t)
    ensures z == base + a * total
  {
    if Carries(nodes[j], tenor) {
      var h := Hats(Years(nodes), t)[j];
      CarrierStep(nodes, j, tenor, a, t, h, before, z);
      OneMoreTerm(base, a, s, h, before, z, total);
    }
  }

  lemma {:induction false} BumpCarriersMove(nodes: seq<CurveNode>, j: nat, tenor: Option<string>, a: real, t: real, z: real, total: real)
    requires ValidNodes(nodes) && j <= |nodes|
    requires z == Interpolate(Years(nodes), BumpCarriers(nodes, j, tenor, a), t) && total == TentsOf(nodes, j, tenor, t)
    ensures z == Interpolate(Years(nodes), Rates(nodes), t) + a * total
  {
    if j == 0 {
      MulZero(a, total);
    } else {
      var before, s := Interpolate(Years(nodes), BumpCarriers(nodes, j - 1, tenor, a), t), TentsOf(nodes, j - 1, tenor, t);
      BumpCarriersMove(nodes, j - 1, tenor, a, t, before, s);
      NextCarrier(nodes, j - 1, tenor, a, t, Interpolate(Years(nodes), Rates(nodes), t), before, s, z, total);
    }
  }

  /** Shifting a tenor keeps a curve valid and moves it by the tents of the nodes that carry it, however many do. */
  lemma ShiftMoves(nodes: seq<CurveNode>, tenor: Option<string>, a: real, t: real, h: real)
    requires ValidNodes(nodes) && h == Tent(nodes, tenor, t)
    ensures var shifted := ShiftNodes(nodes, tenor, a);
      && ValidNodes(shifted) && Years(shifted) == Years(nodes)
      && Interpolate(Years(shifted), Rates(shifted), t) == Interpolate(Years(nodes), Rates(nodes), t) + a * h
  {
    var shifted := ShiftNodes(nodes, tenor, a);
    assert Years(shifted) == Years(nodes);
    BumpCarriersEntries(nodes, |nodes|, tenor, a);
    assert Rates(shifted) == BumpCarriers(nodes, |nodes|, tenor, a);
    BumpCarriersMove(nodes, |nodes|, tenor, a, t, Interpolate(Years(shifted), Rates(shifted), t), h);
  }

  lemma {:induction false} NoTent(nodes: seq<CurveNode>, j: nat, tenor: Option<string>, t: real)
    requires j <= |nodes| && Increasing(Years(nodes)) && forall i :: 0 <= i < j ==> !Carries(nodes[i], tenor)
    ensures TentsOf(nodes, j, tenor, t) == 0.0
  {
    if j > 0 {
      NoTent(nodes, j - 1, tenor, t);
    }
  }

  lemma {:induction false} OneTent(nodes: seq<CurveNode>, j: nat, i: nat, tenor: Option<string>, t: real)
    requires i < j <= |nodes| && Increasing(Years(nodes)) && Carries(nodes[i], tenor)
    requires forall k :: 0 <= k < j && k != i ==> !Carries(nodes[k], tenor)
    ensures TentsOf(nodes, j, tenor, t) == Hat(Years(nodes), i, t)
  {
    if i == j - 1 {
      NoTent(nodes, j - 1, tenor, t);
    } else {
      OneTent(nodes, j - 1, i, tenor, t);
    }
  }

  /** A tenor's tent is that of the node that alone carries it, or nothing when no node does. */
  lemma TentIs(nodes: seq<CurveNode>, tenor: string, t: real)
    requires ValidNodes(nodes)
    ensures (forall i :: 0 <= i < |nodes| ==> nodes[i].tenor != tenor) ==> Tent(nodes, Some(tenor), t) == 0.0
    ensures forall i :: 0 <= i < |nodes| && nodes[i].tenor == tenor && (forall k :: 0 <= k < |nodes| && k != i ==> nodes[k].tenor != tenor) ==>
      Tent(nodes, Some(tenor), t) == Hat(Years(nodes), i, t)
  {
    if forall i :: 0 <= i < |nodes| ==> nodes[i].tenor != tenor {
      NoTent(nodes, |nodes|, Some(tenor), t);
    }
    forall i | 0 <= i < |nodes| && nodes[i].tenor == tenor && (forall k :: 0 <= k < |nodes| && k != i ==> nodes[k].tenor != tenor)
      ensures Tent(nodes, Some(tenor), t) == Hat(Years(nodes), i, t)
    {
      OneTent(nodes, |nodes|, i, Some(tenor), t);
    }
  }

  /** ParallelShiftBps adds bps / 10000 to the zero rate everywhere. */
  lemma ParallelShiftZero(c: YieldCurve, bps: real, t: real)
    requires ValidNodes(c.nodes) && t >= 0.0
    ensures ValidNodes(ParallelShiftBps(c, bps).nodes)
    ensures ZeroAt(ParallelShiftBps(c, bps), t) == Ok(ZeroAt(c, t).value + bps / 10000.0)
  {
    ShiftAllMoves(c.nodes, BpsToDecimalRate(bps), t);
  }

  lemma ShiftAllMoves(nodes: seq<CurveNode>, a: real, t: real)
    requires ValidNodes(nodes)
    ensures var shifted := ShiftNodes(nodes, None, a);
      && ValidNodes(shifted) && Years(shifted) == Years(nodes)
      && Interpolate(Years(shifted), Rates(shifted), t) == Interpolate(Years(nodes), Rates(nodes), t) + a
  {
    assert Years(ShiftNodes(nodes, None, a)) == Years(nodes);
    assert Rates(ShiftNodes(nodes, None, a)) == AddAll(Rates(nodes), a);
    ParallelMoves(Years(nodes), Rates(nodes), a, t);
  }

  /** KeyRateShiftBps takes any key tenor, and moves the zero rate by its tent, which is nothing when no node carries it. */
  lemma KeyRateShiftZero(c: YieldCurve, tenor: string, bps: real, t: real, a: real, h: real)
    requires ValidNodes(c.nodes) && t >= 0.0
    requires a == bps / 10000.0 && h == Tent(c.nodes, Some(tenor), t)
    ensures var shifted := KeyRateShiftBps(c, tenor, bps);
      && (shifted.Ok? <==> tenor in TENOR_YEARS)
      && (shifted.Ok? ==> ValidNodes(shifted.value.nodes) && ZeroAt(shifted.value, t) == Ok(ZeroAt(c, t).value + a * h))
  {
    hide Tent, Interpolate, ShiftNodes, Hat;
    ShiftMoves(c.nodes, Some(tenor), a, t, h);
  }
}
