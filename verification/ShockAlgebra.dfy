/** What batches of snapshot shocks come to: splitting, order, and the marks that must agree. */
module ShockAlgebra {
  import opened Wrappers
  import opened Strings
  import opened RealMath
  import opened Vectors
  import opened Factors
  import opened Snapshots
  import V = VolSurfaces

  // ----- batches -----

  /** A batch applied to the outcome of another. */
  ghost function Then(r: Result<Marks, string>, shocks: seq<Shock>): Result<Marks, string> {
    match r
    case Err(e) => Err(e)
    case Ok(m) => ApplyMarks(m, shocks)
  }

  lemma {:induction false} MarksSplit(m: Marks, a: seq<Shock>, b: seq<Shock>)
    ensures ApplyMarks(m, a + b) == Then(ApplyMarks(m, a), b)
    decreases |a|
  {
    if a == [] {
      assert a + b == b;
    } else {
      assert (a + b)[0] == a[0] && (a + b)[1..] == a[1..] + b;
      if ApplyOne(m, a[0]).Ok? {
        MarksSplit(ApplyOne(m, a[0]).value, a[1..], b);
      }
    }
  }

  lemma {:induction false} IdSplit(id: string, a: seq<Shock>, b: seq<Shock>)
    ensures IdAfterAll(id, a + b) == IdAfterAll(IdAfterAll(id, a), b)
    decreases |a|
  {
    if a == [] {
      assert a + b == b;
    } else {
      assert (a + b)[0] == a[0] && (a + b)[1..] == a[1..] + b;
      IdSplit(IdAfter(id, a[0].factor), a[1..], b);
    }
  }

  ghost function AfterBatch(r: Result<Snapshot, string>, shocks: seq<Shock>): Result<Snapshot, string> {
    match r
    case Err(e) => Err(e)
    case Ok(s) => ApplySpec(s, shocks)
  }

  /** One batch is two batches in turn: the same marks, the same id, the same failure. */
  lemma ApplySplit(s: Snapshot, a: seq<Shock>, b: seq<Shock>)
    ensures ApplySpec(s, a + b) == AfterBatch(ApplySpec(s, a), b)
  {
    MarksSplit(s.marks, a, b);
    IdSplit(s.id, a, b);
  }

  /** Successive bumps. */
  ghost function Bumps(s: Snapshot, shocks: seq<Shock>): Result<Snapshot, string>
    decreases |shocks|
  {
    if shocks == [] then Ok(s)
    else match ApplySpec(s, [shocks[0]])
      case Err(e) => Err(e)
      case Ok(t) => Bumps(t, shocks[1..])
  }

  /** apply is bumping one factor at a time. */
  lemma {:induction false} ApplyIsBumps(s: Snapshot, shocks: seq<Shock>)
    ensures ApplySpec(s, shocks) == Bumps(s, shocks)
    decreases |shocks|
  {
    if shocks != [] {
      assert shocks == [shocks[0]] + shocks[1..];
      ApplySplit(s, [shocks[0]], shocks[1..]);
      match ApplySpec(s, [shocks[0]]) {
        case Err(_) =>
        case Ok(t) => ApplyIsBumps(t, shocks[1..]);
      }
    }
  }

  // ----- spot and rate shocks in any order -----

  predicate AllLinear(shocks: seq<Shock>) {
    forall i :: 0 <= i < |shocks| ==> IsLinear(shocks[i].factor)
  }

  /** The same marks, or both fail. */
  predicate Same(a: Result<Marks, string>, b: Result<Marks, string>) {
    (a.Err? && b.Err?) || (a.Ok? && a == b)
  }

  lemma GrowCommutes(v: real, a: real, b: real)
    ensures Grow(Grow(v, a), b) == Grow(Grow(v, b), a)
  {
    MulAssoc(v, 1.0 + a, 1.0 + b);
  }

  lemma GrowMapCommutes(spots: map<string, real>, x: string, a: real, y: string, b: real)
    requires x in spots && y in spots
    ensures var xy, yx := spots[x := Grow(spots[x], a)], spots[y := Grow(spots[y], b)];
      xy[y := Grow(xy[y], b)] == yx[x := Grow(yx[x], a)]
  {
    if x == y {
      GrowCommutes(spots[x], a, b);
    }
  }

  lemma ZerosCommute(zeros: map<string, real>, s: Option<string>, a: real, t: Option<string>, b: real)
    ensures BumpZeros(BumpZeros(zeros, s, a), t, b) == BumpZeros(BumpZeros(zeros, t, b), s, a)
  {
    forall z | z in zeros
      ensures BumpZeros(BumpZeros(zeros, s, a), t, b)[z] == BumpZeros(BumpZeros(zeros, t, b), s, a)[z]
    {
      assert BumpZeros(zeros, s, a)[z] == zeros[z] + Added(s, a, z);
      assert BumpZeros(zeros, t, b)[z] == zeros[z] + Added(t, b, z);
    }
  }

  function Added(tenor: Option<string>, a: real, z: string): real {
    if tenor.None? || tenor.value == z then a else 0.0
  }

  lemma KeyRatesCommute(keyRates: map<string, map<string, real>>, c: string, s: Option<string>, a: real, d: string, t: Option<string>, b: real)
    ensures BumpKeyRates(BumpKeyRates(keyRates, c, s, a), d, t, b) == BumpKeyRates(BumpKeyRates(keyRates, d, t, b), c, s, a)
  {
    if c == d && c in keyRates {
      ZerosCommute(keyRates[c], s, a, t, b);
    }
  }

  lemma CurveCommutes(x: NamedCurve, c: string, s: Option<string>, a: real, d: string, t: Option<string>, b: real)
    ensures BumpCurve(BumpCurve(x, c, s, a), d, t, b) == BumpCurve(BumpCurve(x, d, t, b), c, s, a)
  {
    ZerosCommute(x.payload.zeros, s, a, t, b);
  }

  lemma CurvesCommute(curves: seq<NamedCurve>, c: string, s: Option<string>, a: real, d: string, t: Option<string>, b: real)
    ensures BumpCurves(BumpCurves(curves, c, s, a), d, t, b) == BumpCurves(BumpCurves(curves, d, t, b), c, s, a)
  {
    forall i | 0 <= i < |curves|
      ensures BumpCurves(BumpCurves(curves, c, s, a), d, t, b)[i] == BumpCurves(BumpCurves(curves, d, t, b), c, s, a)[i]
    {
      CurveCommutes(curves[i], c, s, a, d, t, b);
    }
  }

  lemma BumpKeepsTouch(c: NamedCurve, currency: string, tenor: Option<string>, a: real, d: string, t: Option<string>)
    ensures Touches(BumpCurve(c, currency, tenor, a), d, t) == Touches(c, d, t)
  {
  }

  /** Rate shocks add no tenors and remove none. */
  lemma ShiftKeepsTenors(m: Marks, c: string, s: Option<string>, a: real, d: string, t: string)
    requires CanShift(m, c, s)
    ensures HasTenor(ShiftRates(m, c, s, a), d, t) <==> HasTenor(m, d, t)
  {
    var n := ShiftRates(m, c, s, a);
    forall i | 0 <= i < |m.curves|
      ensures Touches(n.curves[i], d, Some(t)) <==> Touches(m.curves[i], d, Some(t))
    {
      BumpKeepsTouch(m.curves[i], c, s, a, d, Some(t));
    }
  }

  lemma ShiftKeepsCan(m: Marks, c: string, s: Option<string>, a: real, d: string, t: Option<string>)
    requires CanShift(m, c, s)
    ensures CanShift(ShiftRates(m, c, s, a), d, t) <==> CanShift(m, d, t)
  {
    if t.Some? {
      ShiftKeepsTenors(m, c, s, a, d, t.value);
    }
  }

  lemma ScalarsCommute(rates: map<string, real>, c: string, s: Option<string>, a: real, d: string, t: Option<string>, b: real)
    ensures ShiftScalar(ShiftScalar(rates, c, s, a), d, t, b) == ShiftScalar(ShiftScalar(rates, d, t, b), c, s, a)
  {
  }

  lemma ShiftsCommute(m: Marks, c: string, s: Option<string>, a: real, d: string, t: Option<string>, b: real)
    ensures ShiftRates(ShiftRates(m, c, s, a), d, t, b) == ShiftRates(ShiftRates(m, d, t, b), c, s, a)
  {
    ScalarsCommute(m.rates, c, s, a, d, t, b);
    KeyRatesCommute(m.keyRates, c, s, a, d, t, b);
    CurvesCommute(m.curves, c, s, a, d, t, b);
  }

  lemma UnrelatedKeepsCan(m: Marks, n: Marks, d: string, t: Option<string>)
    requires m.rates == n.rates && m.keyRates == n.keyRates && m.curves == n.curves
    ensures CanShift(n, d, t) <==> CanShift(m, d, t)
  {
  }

  /** A spot or rate shock as one of three independent updates. */
  datatype Move = OnEquity(name: string) | OnFx(pair: string) | OnRate(currency: string, tenor: Option<string>)

  function MoveOf(f: Factor): Move
    requires IsLinear(f)
  {
    match f
    case EquitySpot(name) => OnEquity(name)
    case FXSpot(pair) => OnFx(pair)
    case RateZero(currency, tenor) => OnRate(currency, TenorOf(tenor))
  }

  predicate CanMove(m: Marks, v: Move) {
    match v
    case OnEquity(name) => name in m.equitySpots
    case OnFx(pair) => pair in m.fxSpots
    case OnRate(currency, tenor) => CanShift(m, currency, tenor)
  }

  function Moved(m: Marks, v: Move, a: real): Marks
    requires CanMove(m, v)
  {
    match v
    case OnEquity(name) => m.(equitySpots := m.equitySpots[name := Grow(m.equitySpots[name], a)])
    case OnFx(pair) => m.(fxSpots := m.fxSpots[pair := Grow(m.fxSpots[pair], a)])
    case OnRate(currency, tenor) => ShiftRates(m, currency, tenor, a)
  }

  lemma LinearIsMove(m: Marks, s: Shock)
    requires IsLinear(s.factor)
    ensures ApplyOne(m, s).Ok? <==> CanMove(m, MoveOf(s.factor))
    ensures CanMove(m, MoveOf(s.factor)) ==> ApplyOne(m, s) == Ok(Moved(m, MoveOf(s.factor), s.amount))
  {
    match s.factor {
      case EquitySpot(_) =>
      case FXSpot(_) =>
      case RateZero(_, _) =>
    }
  }

  /** The second move is possible after the first exactly when it was before. */
  lemma MoveKeepsCan(m: Marks, v: Move, a: real, w: Move)
    requires CanMove(m, v)
    ensures CanMove(Moved(m, v, a), w) <==> CanMove(m, w)
  {
    if w.OnRate? {
      if v.OnRate? {
        ShiftKeepsCan(m, v.currency, v.tenor, a, w.currency, w.tenor);
      } else {
        UnrelatedKeepsCan(m, Moved(m, v, a), w.currency, w.tenor);
      }
    }
  }

  lemma MovesCommute(m: Marks, v: Move, a: real, w: Move, b: real)
    requires CanMove(m, v) && CanMove(m, w)
    ensures CanMove(Moved(m, v, a), w) && CanMove(Moved(m, w, b), v)
    ensures Moved(Moved(m, v, a), w, b) == Moved(Moved(m, w, b), v, a)
  {
    MoveKeepsCan(m, v, a, w);
    MoveKeepsCan(m, w, b, v);
    match (v, w) {
      case (OnEquity(p), OnEquity(q)) => GrowMapCommutes(m.equitySpots, p, a, q, b);
      case (OnFx(p), OnFx(q)) => GrowMapCommutes(m.fxSpots, p, a, q, b);
      case (OnRate(c, s), OnRate(d, t)) => ShiftsCommute(m, c, s, a, d, t, b);
      case (OnEquity(_), _) =>
      case (_, OnEquity(_)) =>
      case (OnFx(_), OnRate(_, _)) =>
      case (OnRate(_, _), OnFx(_)) =>
    }
  }

  ghost function AfterOne(r: Result<Marks, string>, x: Shock): Result<Marks, string> {
    match r
    case Err(e) => Err(e)
    case Ok(m) => ApplyOne(m, x)
  }

  lemma TwoShocks(m: Marks, x: Shock, y: Shock, rest: seq<Shock>)
    ensures ApplyMarks(m, [x, y] + rest) == Then(AfterOne(ApplyOne(m, x), y), rest)
  {
    var s := [x, y] + rest;
    assert s[1..] == [y] + rest && ([y] + rest)[1..] == rest;
  }

  lemma PairCommutes(m: Marks, x: Shock, y: Shock)
    requires IsLinear(x.factor) && IsLinear(y.factor)
    ensures Same(AfterOne(ApplyOne(m, x), y), AfterOne(ApplyOne(m, y), x))
  {
    var v, w := MoveOf(x.factor), MoveOf(y.factor);
    LinearIsMove(m, x);
    LinearIsMove(m, y);
    if CanMove(m, v) {
      LinearIsMove(Moved(m, v, x.amount), y);
      MoveKeepsCan(m, v, x.amount, w);
    }
    if CanMove(m, w) {
      LinearIsMove(Moved(m, w, y.amount), x);
      MoveKeepsCan(m, w, y.amount, v);
    }
    if CanMove(m, v) && CanMove(m, w) {
      MovesCommute(m, v, x.amount, w, y.amount);
    }
  }

  /** Neighbouring spot and rate shocks may be swapped. */
  lemma Swap(m: Marks, x: Shock, y: Shock, rest: seq<Shock>)
    requires IsLinear(x.factor) && IsLinear(y.factor)
    ensures Same(ApplyMarks(m, [x, y] + rest), ApplyMarks(m, [y, x] + rest))
  {
    TwoShocks(m, x, y, rest);
    TwoShocks(m, y, x, rest);
    PairCommutes(m, x, y);
  }

  lemma {:induction false} ToFront(m: Marks, s: seq<Shock>, k: nat)
    requires AllLinear(s) && k < |s|
    ensures Same(ApplyMarks(m, s), ApplyMarks(m, [s[k]] + (s[..k] + s[k + 1..])))
    decreases k
  {
    if k == 0 {
      assert [s[0]] + (s[..0] + s[1..]) == s;
    } else {
      var head, x, tail := s[0], s[k], s[1..k] + s[k + 1..];
      var rest := s[1..];
      assert rest[..k - 1] + rest[k..] == tail && rest[k - 1] == x;
      assert [head] + ([x] + tail) == [head, x] + tail && [x] + (s[..k] + s[k + 1..]) == [x, head] + tail;
      if ApplyOne(m, head).Ok? {
        ToFront(ApplyOne(m, head).value, rest, k - 1);
      }
      assert ([head, x] + tail)[1..] == [x] + tail;
      Swap(m, head, x, tail);
    }
  }

  /** Spot and rate shocks give the same marks in every order, and fail in every order or in none. */
  lemma {:induction false} OrderIrrelevant(m: Marks, s: seq<Shock>, t: seq<Shock>)
    requires multiset(s) == multiset(t) && AllLinear(s)
    ensures Same(ApplyMarks(m, s), ApplyMarks(m, t))
    decreases |s|
  {
    LinearPermuted(s, t);
    if s == [] {
      assert |multiset(t)| == 0;
    } else {
      var k := PermutedHead(s, t);
      var rest := t[..k] + t[k + 1..];
      ToFront(m, t, k);
      ConsMarks(m, s[0], rest);
      if ApplyOne(m, s[0]).Ok? {
        OrderIrrelevant(ApplyOne(m, s[0]).value, s[1..], rest);
      }
    }
  }

  lemma ConsMarks(m: Marks, x: Shock, rest: seq<Shock>)
    ensures ApplyMarks(m, [x] + rest) == Then(ApplyOne(m, x), rest)
  {
    assert ([x] + rest)[1..] == rest;
  }

  lemma LinearPermuted(s: seq<Shock>, t: seq<Shock>)
    requires multiset(s) == multiset(t) && AllLinear(s)
    ensures AllLinear(t)
  {
    forall i | 0 <= i < |t|
      ensures IsLinear(t[i].factor)
    {
      assert t[i] in multiset(s);
    }
  }

  // ----- the scalar vol and the surface -----

  /** The scalar mark, the payload's own number and the surface's at-the-money vol are one. */
  ghost predicate VolMarked(vols: map<string, real>, surfaces: map<string, V.Payload>, name: string, assetClass: string) {
    && HasSurface(surfaces, name, assetClass) && name in vols
    && V.KnownGrid(surfaces[name].grid) && surfaces[name].grid != map[]
    && vols[name] == surfaces[name].atmVol == V.AtmVol(V.Points(surfaces[name].grid), "1Y")
  }

  lemma ShockSurfaceMarks(p: V.Payload, name: string, shape: V.Shape, amount: real)
    requires ShockSurface(p, name, shape, amount).Ok?
    ensures var q := ShockSurface(p, name, shape, amount).value;
      && q.assetClass == p.assetClass && V.KnownGrid(q.grid) && q.grid != map[]
      && q.atmVol == V.AtmVol(V.Points(q.grid), "1Y")
  {
    var points := V.ShockPoints(V.Points(p.grid), shape, amount);
    V.PointsProper(p.grid);
    V.ShockKeepsProper(V.Points(p.grid), shape, amount);
    V.RoundTrip(points);
    assert |points| > 0;
    assert V.GridOf(points) != map[];
  }

  lemma ShockVolMarks(vols: map<string, real>, surfaces: map<string, V.Payload>, name: string, assetClass: string, shape: V.Shape, amount: real)
    requires ShockVol(vols, surfaces, name, assetClass, shape, amount).Ok?
    ensures var (v, s) := ShockVol(vols, surfaces, name, assetClass, shape, amount).value;
      && v.Keys == vols.Keys && s.Keys == surfaces.Keys
      && (forall x :: x in surfaces ==> s[x].assetClass == surfaces[x].assetClass)
      && (HasSurface(surfaces, name, assetClass) ==> VolMarked(v, s, name, assetClass))
      && (forall x :: x in vols && x != name ==> v[x] == vols[x])
      && (forall x :: x in surfaces && (x != name || !HasSurface(surfaces, name, assetClass)) ==> s[x] == surfaces[x])
  {
    if HasSurface(surfaces, name, assetClass) {
      ShockSurfaceMarks(surfaces[name], name, shape, amount);
    }
  }

  ghost predicate Agrees(m: Marks, name: string, assetClass: string) {
    VolMarked(if assetClass == "equity" then m.equityVols else m.fxVols, m.volSurfaces, name, assetClass)
  }

  lemma EquityVolAgrees(m: Marks, s: Shock)
    requires s.factor.EquityVol? && ApplyVol(m, s).Ok?
    ensures HasSurface(m.volSurfaces, s.factor.underlying, "equity") ==> Agrees(ApplyVol(m, s).value, s.factor.underlying, "equity")
    ensures forall x :: Agrees(m, x, "equity") ==> Agrees(ApplyVol(m, s).value, x, "equity")
    ensures forall x :: Agrees(m, x, "fx") ==> Agrees(ApplyVol(m, s).value, x, "fx")
  {
    ShockVolMarks(m.equityVols, m.volSurfaces, s.factor.underlying, "equity", ShapeOf(s.factor.expiry, s.factor.moneyness), s.amount);
  }

  lemma FxVolAgrees(m: Marks, s: Shock)
    requires s.factor.FXVol? && ApplyVol(m, s).Ok?
    ensures HasSurface(m.volSurfaces, s.factor.pair, "fx") ==> Agrees(ApplyVol(m, s).value, s.factor.pair, "fx")
    ensures forall x :: Agrees(m, x, "equity") ==> Agrees(ApplyVol(m, s).value, x, "equity")
    ensures forall x :: Agrees(m, x, "fx") ==> Agrees(ApplyVol(m, s).value, x, "fx")
  {
    ShockVolMarks(m.fxVols, m.volSurfaces, s.factor.pair, "fx", ShapeOf(s.factor.expiry, s.factor.moneyness), s.amount);
  }

  /** After a vol shock on a name with a surface of its class, the two vols agree. */
  lemma VolShockAgrees(m: Marks, s: Shock)
    requires ApplyOne(m, s).Ok?
    ensures s.factor.EquityVol? && HasSurface(m.volSurfaces, s.factor.underlying, "equity") ==>
      Agrees(ApplyOne(m, s).value, s.factor.underlying, "equity")
    ensures s.factor.FXVol? && HasSurface(m.volSurfaces, s.factor.pair, "fx") ==>
      Agrees(ApplyOne(m, s).value, s.factor.pair, "fx")
  {
    if s.factor.EquityVol? {
      EquityVolAgrees(m, s);
    } else if s.factor.FXVol? {
      FxVolAgrees(m, s);
    }
  }

  lemma LinearAgrees(m: Marks, s: Shock, name: string, assetClass: string)
    requires IsLinear(s.factor) && ApplyOne(m, s).Ok? && Agrees(m, name, assetClass)
    ensures Agrees(ApplyOne(m, s).value, name, assetClass)
  {
    LinearIsMove(m, s);
    MoveKeepsVols(m, MoveOf(s.factor), s.amount);
  }

  lemma MoveKeepsVols(m: Marks, v: Move, a: real)
    requires CanMove(m, v)
    ensures Moved(m, v, a).equityVols == m.equityVols && Moved(m, v, a).fxVols == m.fxVols
    ensures Moved(m, v, a).volSurfaces == m.volSurfaces
  {
  }

  lemma StillAgrees(m: Marks, s: Shock, name: string, assetClass: string)
    requires ApplyOne(m, s).Ok? && assetClass in {"equity", "fx"}
    requires Agrees(m, name, assetClass)
    ensures Agrees(ApplyOne(m, s).value, name, assetClass)
  {
    if IsLinear(s.factor) {
      LinearAgrees(m, s, name, assetClass);
    } else if s.factor.EquityVol? {
      EquityVolAgrees(m, s);
    } else {
      FxVolAgrees(m, s);
    }
  }

  /** And they go on agreeing through any later batch. */
  lemma {:induction false} AgreementStays(m: Marks, shocks: seq<Shock>, name: string, assetClass: string)
    requires ApplyMarks(m, shocks).Ok? && assetClass in {"equity", "fx"}
    requires Agrees(m, name, assetClass)
    ensures Agrees(ApplyMarks(m, shocks).value, name, assetClass)
    decreases |shocks|
  {
    if shocks != [] {
      StillAgrees(m, shocks[0], name, assetClass);
      AgreementStays(ApplyOne(m, shocks[0]).value, shocks[1..], name, assetClass);
    }
  }

  // ----- names -----

  /** Only ALL and PARALLEL, spelt so, move every tenor. */
  lemma ParallelNames(tenor: string)
    ensures TenorOf(tenor) == if tenor == "ALL" || tenor == "PARALLEL" then None else Some(tenor)
  {
  }

  /** A chained id begins with the id it was chained to, and ends with the key of the factor, or with its tenor. */
  lemma IdChained(id: string, f: Factor) returns (middle: string)
    ensures IdAfter(id, f) == id + ":bump:" + middle
    ensures f.EquitySpot? ==> middle == f.symbol
    ensures f.FXSpot? ==> middle == f.pair
    ensures f.EquityVol? ==> middle == f.underlying + ":VOL"
    ensures f.FXVol? ==> middle == f.pair + ":VOL"
    ensures f.RateZero? ==> middle == f.currency + ":RATE:" + f.tenor
  {
    middle := match f
      case EquitySpot(s) => s
      case FXSpot(p) => p
      case EquityVol(u, _, _) => u + ":VOL"
      case FXVol(p, _, _) => p + ":VOL"
      case RateZero(c, t) => c + ":RATE:" + t;
    if f.RateZero? {
      assert ":RATE" + ":" == ":RATE:";
      assert id + ":bump:" + (f.currency + ":RATE") + (":" + f.tenor) == id + ":bump:" + (f.currency + ":RATE:" + f.tenor);
    }
  }
}
