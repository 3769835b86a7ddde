/**
 * When two vol shocks of one name may be swapped: the floor is what stands in the way
 * (domain/models.py, _stage_shock; market/vol_surfaces.py).
 */
module VolOrder {
  import opened Wrappers
  import opened RealMath
  import opened Vectors
  import opened Strings
  import opened Factors
  import opened Snapshots
  import opened ShockAlgebra
  import V = VolSurfaces

  // ----- a scalar vol -----

  function FlooredMove(v: real, x: real): real { V.Floor(Grow(v, x)) }

  /**
   * Neither move is floored; or both are, and the floor is raised alike afterwards; or one is, and the other neither is
   * upward nor lifts the unfloored product back over the floor.
   */
  predicate Swappable(v: real, x: real, y: real) {
    var p, q := Grow(v, x), Grow(v, y);
    if p >= V.MIN_VOL && q >= V.MIN_VOL then true
    else if p < V.MIN_VOL && q < V.MIN_VOL then Max(0.0, x) == Max(0.0, y)
    else if p < V.MIN_VOL then y <= 0.0 && Grow(p, y) <= V.MIN_VOL
    else x <= 0.0 && Grow(q, x) <= V.MIN_VOL
  }

  /** Two moves of a scalar vol commute exactly then, whatever the mark. */
  lemma FlooredMovesCommute(v: real, x: real, y: real)
    ensures FlooredMove(FlooredMove(v, x), y) == FlooredMove(FlooredMove(v, y), x) <==> Swappable(v, x, y)
  {
    var p, q := Grow(v, x), Grow(v, y);
    GrowCommutes(v, x, y);
    GrowOfFloor(x);
    GrowOfFloor(y);
    if p < V.MIN_VOL <= q {
      OneFloored(p, Grow(p, y), y);
    } else if q < V.MIN_VOL <= p {
      OneFloored(q, Grow(q, x), x);
    }
  }

  lemma GrowOfFloor(x: real)
    ensures FlooredMove(V.MIN_VOL, x) == V.MIN_VOL + V.MIN_VOL * Max(0.0, x)
    ensures FlooredMove(V.MIN_VOL, x) == V.MIN_VOL <==> x <= 0.0
  {
  }

  /** The floored side ends at the floor moved by y, the other at the floored product. */
  lemma OneFloored(p: real, product: real, y: real)
    requires p < V.MIN_VOL && product == Grow(p, y)
    ensures FlooredMove(V.MIN_VOL, y) == V.Floor(product) <==> y <= 0.0 && product <= V.MIN_VOL
  {
    GrowOfFloor(y);
    if y > 0.0 {
      GrowStrict(p, V.MIN_VOL, y);
    }
  }

  lemma GrowStrict(p: real, q: real, y: real)
    requires p < q && 1.0 + y > 0.0
    ensures Grow(p, y) < Grow(q, y)
  {
    var g := 1.0 + y;
    MulStrict(p, q, g);
    assert Grow(p, y) == p * g && Grow(q, y) == q * g;
  }

  /** For a mark that is no negative number the product plays no part. */
  lemma SwappableMark(v: real, x: real, y: real)
    requires v >= 0.0
    ensures Swappable(v, x, y) <==>
      if Grow(v, x) < V.MIN_VOL && Grow(v, y) < V.MIN_VOL then Max(0.0, x) == Max(0.0, y)
      else !(Grow(v, x) < V.MIN_VOL && y > 0.0) && !(Grow(v, y) < V.MIN_VOL && x > 0.0)
  {
    if Grow(v, x) < V.MIN_VOL <= Grow(v, y) && y <= 0.0 {
      DownwardStays(v, Grow(v, x), Grow(v, y), y);
    }
    if Grow(v, y) < V.MIN_VOL <= Grow(v, x) && x <= 0.0 {
      DownwardStays(v, Grow(v, y), Grow(v, x), x);
    }
  }

  lemma DownwardStays(v: real, p: real, q: real, y: real)
    requires v >= 0.0 && p < V.MIN_VOL <= q && q == Grow(v, y) && y <= 0.0
    ensures Grow(p, y) <= V.MIN_VOL
  {
    var g := 1.0 + y;
    if g <= 0.0 {
      MulMonotone(g, 0.0, v);
    }
    MulMonotone(p, V.MIN_VOL, g);
    MulMonotone(g, 1.0, V.MIN_VOL);
  }

  // ----- one name of a snapshot -----

  datatype VolClass = OfEquity | OfFx

  function FactorOf(c: VolClass, name: string, expiry: string, moneyness: string): Factor {
    if c == OfEquity then EquityVol(name, expiry, moneyness) else FXVol(name, expiry, moneyness)
  }

  function ClassName(c: VolClass): string {
    if c == OfEquity then "equity" else "fx"
  }

  function VolsOf(m: Marks, c: VolClass): map<string, real> {
    if c == OfEquity then m.equityVols else m.fxVols
  }

  function WithVols(m: Marks, c: VolClass, vols: map<string, real>, surfaces: map<string, V.Payload>): Marks {
    if c == OfEquity then m.(equityVols := vols, volSurfaces := surfaces) else m.(fxVols := vols, volSurfaces := surfaces)
  }

  lemma OneVolShock(m: Marks, c: VolClass, name: string, expiry: string, moneyness: string, x: real)
    requires ShockVol(VolsOf(m, c), m.volSurfaces, name, ClassName(c), ShapeOf(expiry, moneyness), x).Ok?
    ensures var r := ShockVol(VolsOf(m, c), m.volSurfaces, name, ClassName(c), ShapeOf(expiry, moneyness), x).value;
      ApplyOne(m, Shock(FactorOf(c, name, expiry, moneyness), x)) == Ok(WithVols(m, c, r.0, r.1))
  {
  }

  lemma TwoInTurn(m: Marks, x: Shock, n: Marks, y: Shock)
    requires ApplyOne(m, x) == Ok(n)
    ensures ApplyMarks(m, [x, y]) == ApplyOne(n, y)
  {
    TwoShocks(m, x, y, []);
    assert [x, y] + [] == [x, y];
  }

  /** Where a vol shock points: the two buckets of its factor. */
  datatype Bucket = Bucket(expiry: string, moneyness: string)

  function FactorIn(c: VolClass, name: string, b: Bucket): Factor {
    FactorOf(c, name, b.expiry, b.moneyness)
  }

  function ShapeIn(b: Bucket): V.Shape {
    ShapeOf(b.expiry, b.moneyness)
  }

  /** Two shocks in turn, from what each stages. */
  lemma TwoVolShocks(m: Marks, c: VolClass, name: string, b: Bucket, d: Bucket, x: real, y: real,
                     once: (map<string, real>, map<string, V.Payload>), twice: (map<string, real>, map<string, V.Payload>))
    requires ShockVol(VolsOf(m, c), m.volSurfaces, name, ClassName(c), ShapeIn(b), x) == Ok(once)
    requires ShockVol(once.0, once.1, name, ClassName(c), ShapeIn(d), y) == Ok(twice)
    ensures ApplyMarks(m, [Shock(FactorIn(c, name, b), x), Shock(FactorIn(c, name, d), y)]) == Ok(WithVols(m, c, twice.0, twice.1))
  {
    var n := WithVols(m, c, once.0, once.1);
    OneVolShock(m, c, name, b.expiry, b.moneyness, x);
    OneVolShock(n, c, name, d.expiry, d.moneyness, y);
    TwoInTurn(m, Shock(FactorIn(c, name, b), x), n, Shock(FactorIn(c, name, d), y));
    assert WithVols(n, c, twice.0, twice.1) == WithVols(m, c, twice.0, twice.1);
  }

  lemma VolsDiffer(m: Marks, c: VolClass, a: map<string, real>, s: map<string, V.Payload>, b: map<string, real>, t: map<string, V.Payload>)
    ensures WithVols(m, c, a, s) == WithVols(m, c, b, t) <==> a == b && s == t
  {
    assert VolsOf(WithVols(m, c, a, s), c) == a && VolsOf(WithVols(m, c, b, t), c) == b;
    assert WithVols(m, c, a, s).volSurfaces == s && WithVols(m, c, b, t).volSurfaces == t;
  }

  // ----- a name without a surface of its class -----

  function ScalarTwice(vols: map<string, real>, name: string, x: real, y: real): map<string, real>
    requires name in vols
  {
    vols[name := FlooredMove(FlooredMove(vols[name], x), y)]
  }

  lemma ScalarShocks(m: Marks, c: VolClass, name: string, b: Bucket, d: Bucket, x: real, y: real)
    requires name in VolsOf(m, c) && !HasSurface(m.volSurfaces, name, ClassName(c))
    ensures ApplyMarks(m, [Shock(FactorIn(c, name, b), x), Shock(FactorIn(c, name, d), y)])
         == Ok(WithVols(m, c, ScalarTwice(VolsOf(m, c), name, x, y), m.volSurfaces))
  {
    var vols := VolsOf(m, c);
    var once := vols[name := FlooredMove(vols[name], x)];
    assert once[name := FlooredMove(once[name], y)] == ScalarTwice(vols, name, x, y);
    TwoVolShocks(m, c, name, b, d, x, y, (once, m.volSurfaces), (ScalarTwice(vols, name, x, y), m.volSurfaces));
  }

  /**
   * Two equity or FX vol shocks of a name without a surface, whatever their buckets, give the same marks in either order
   * exactly when its mark allows it.
   */
  lemma ScalarShocksCommuteExactly(m: Marks, c: VolClass, name: string, b: Bucket, d: Bucket, x: real, y: real)
    requires name in VolsOf(m, c) && !HasSurface(m.volSurfaces, name, ClassName(c))
    ensures var f, g := FactorIn(c, name, b), FactorIn(c, name, d);
      ApplyMarks(m, [Shock(f, x), Shock(g, y)]) == ApplyMarks(m, [Shock(g, y), Shock(f, x)]) <==> Swappable(VolsOf(m, c)[name], x, y)
  {
    var vols := VolsOf(m, c);
    ScalarShocks(m, c, name, b, d, x, y);
    ScalarShocks(m, c, name, d, b, y, x);
    FlooredMovesCommute(vols[name], x, y);
    VolsDiffer(m, c, ScalarTwice(vols, name, x, y), m.volSurfaces, ScalarTwice(vols, name, y, x), m.volSurfaces);
    assert ScalarTwice(vols, name, x, y)[name] == FlooredMove(FlooredMove(vols[name], x), y);
    assert ScalarTwice(vols, name, y, x)[name] == FlooredMove(FlooredMove(vols[name], y), x);
  }

  /** Down by everything and up by everything never commute, whatever the mark. */
  lemma VolShocksDoNotCommute(m: Marks, c: VolClass, name: string, b: Bucket, d: Bucket)
    requires name in VolsOf(m, c) && !HasSurface(m.volSurfaces, name, ClassName(c))
    ensures var f, g := FactorIn(c, name, b), FactorIn(c, name, d);
      ApplyMarks(m, [Shock(f, -1.0), Shock(g, 1.0)]) != ApplyMarks(m, [Shock(g, 1.0), Shock(f, -1.0)])
  {
    assert Grow(VolsOf(m, c)[name], -1.0) == 0.0;
    ScalarShocksCommuteExactly(m, c, name, b, d, -1.0, 1.0);
  }

  // ----- a node of a surface -----

  /** A relative shock grows a node, the others shift it. */
  predicate Multiplies(shape: V.Shape) {
    shape.Relative? || shape.ExpiryRelative?
  }

  function Nudged(multiplies: bool, u: real, e: real): real {
    if multiplies then Grow(u, e) else u + e
  }

  /** What a shock of this amount comes to at a node. */
  function AmountAt(shape: V.Shape, k: V.GridKey, amount: real): real {
    match shape
    case Relative => amount
    case ExpiryRelative(e) => if k.0 == e then amount else 0.0
    case Skew => amount * (k.1 - 1.0)
    case Term => amount * V.SortYears(k.0)
  }

  function NodeMove(shape: V.Shape, u: real, e: real): real {
    V.Floor(Nudged(Multiplies(shape), u, e))
  }

  lemma NodeShocked(k: V.GridKey, vol: real, shape: V.Shape, amount: real)
    ensures V.Floor(V.ShockedVol(V.PointAt(k, vol), shape, amount)) == NodeMove(shape, V.Floor(vol), AmountAt(shape, k, amount))
  {
    assert Grow(V.Floor(vol), 0.0) == V.Floor(vol);
  }

  /** Two shocks that both grow or both shift a floored node commute unless one takes it below the floor and the other moves it up. */
  predicate AlikeSwappable(multiplies: bool, u: real, x: real, y: real) {
    && !(Nudged(multiplies, u, x) < V.MIN_VOL && y > 0.0)
    && !(Nudged(multiplies, u, y) < V.MIN_VOL && x > 0.0)
  }

  /** Growth by x and a shift by e: away from the floor only when one of them is nothing or both orders end at the floor. */
  predicate MixedSwappable(u: real, x: real, e: real) {
    var p, q := Grow(u, x), u + e;
    if p >= V.MIN_VOL && q >= V.MIN_VOL then x == 0.0 || e == 0.0 || (p + e <= V.MIN_VOL && Grow(q, x) <= V.MIN_VOL)
    else if p < V.MIN_VOL && q < V.MIN_VOL then true
    else if p < V.MIN_VOL then e <= 0.0
    else x <= 0.0 || p + e == Grow(V.MIN_VOL, x)
  }

  /** Whether a floored node ends the same after a shock of the one shape and one of the other, in either order. */
  predicate NodeSwappable(a: V.Shape, b: V.Shape, u: real, x: real, y: real) {
    if Multiplies(a) == Multiplies(b) then AlikeSwappable(Multiplies(a), u, x, y)
    else if Multiplies(a) then MixedSwappable(u, x, y)
    else MixedSwappable(u, y, x)
  }

  lemma GrowUp(u: real, x: real)
    requires u >= V.MIN_VOL && x >= 0.0
    ensures Grow(u, x) >= V.MIN_VOL
  {
    MulMonotone(1.0, 1.0 + x, u);
  }

  lemma AlikeMovesCommute(multiplies: bool, u: real, x: real, y: real)
    requires u >= V.MIN_VOL
    ensures V.Floor(Nudged(multiplies, V.Floor(Nudged(multiplies, u, x)), y)) == V.Floor(Nudged(multiplies, V.Floor(Nudged(multiplies, u, y)), x))
      <==> AlikeSwappable(multiplies, u, x, y)
  {
    if multiplies {
      FlooredMovesCommute(u, x, y);
      SwappableMark(u, x, y);
      if x >= 0.0 {
        GrowUp(u, x);
      }
      if y >= 0.0 {
        GrowUp(u, y);
      }
    }
  }

  lemma GrowShifted(u: real, x: real, e: real, ex: real)
    requires ex == e * x
    ensures Grow(u + e, x) == Grow(u, x) + e + ex
    ensures ex == 0.0 <==> x == 0.0 || e == 0.0
  {
    assert (u + e) * (1.0 + x) == u * (1.0 + x) + e + e * x;
    if ex == 0.0 && e != 0.0 {
      MulCancelEq(x, 0.0, e);
    }
  }

  /** Neither floored: the two orders differ by the product of the moves. */
  lemma MixedFree(u: real, x: real, e: real)
    requires Grow(u, x) >= V.MIN_VOL && u + e >= V.MIN_VOL
    ensures V.Floor(Grow(u, x) + e) == V.Floor(Grow(u + e, x)) <==> MixedSwappable(u, x, e)
  {
    GrowShifted(u, x, e, e * x);
  }

  lemma GrowDown(u: real, x: real)
    requires u >= V.MIN_VOL
    ensures x <= 0.0 ==> Grow(u, x) <= u
    ensures Grow(u, x) < V.MIN_VOL ==> x < 0.0
  {
    var g := 1.0 + x;
    if x <= 0.0 {
      MulMonotone(g, 1.0, u);
    } else {
      GrowUp(u, x);
    }
  }

  /** Only the growth is floored. */
  lemma MixedGrowthFloored(u: real, x: real, e: real)
    requires u >= V.MIN_VOL && Grow(u, x) < V.MIN_VOL <= u + e
    ensures V.Floor(V.MIN_VOL + e) == V.Floor(Grow(u + e, x)) <==> e <= 0.0
  {
    var ex := e * x;
    GrowShifted(u, x, e, ex);
    GrowDown(u, x);
    if e > 0.0 {
      ProductPositive(e, -x, -ex);
    } else {
      DownwardShift(u, x, e);
    }
  }

  lemma DownwardShift(u: real, x: real, e: real)
    requires Grow(u, x) < V.MIN_VOL <= u + e && e <= 0.0
    ensures Grow(u + e, x) < V.MIN_VOL
  {
    var g := 1.0 + x;
    if g >= 0.0 {
      MulMonotone(u + e, u, g);
    } else {
      MulMonotone(g, 0.0, u + e);
    }
  }

  /** Only the shift is floored. */
  lemma MixedShiftFloored(u: real, x: real, e: real)
    requires u >= V.MIN_VOL && u + e < V.MIN_VOL <= Grow(u, x)
    ensures V.Floor(Grow(u, x) + e) == V.Floor(Grow(V.MIN_VOL, x)) <==> x <= 0.0 || Grow(u, x) + e == Grow(V.MIN_VOL, x)
  {
    GrowOfFloor(x);
    GrowDown(u, x);
  }

  lemma MixedMovesCommute(u: real, x: real, e: real)
    requires u >= V.MIN_VOL
    ensures V.Floor(V.Floor(Grow(u, x)) + e) == V.Floor(Grow(V.Floor(u + e), x)) <==> MixedSwappable(u, x, e)
  {
    var p, q := Grow(u, x), u + e;
    if p >= V.MIN_VOL && q >= V.MIN_VOL {
      MixedFree(u, x, e);
    } else if p < V.MIN_VOL && q < V.MIN_VOL {
      GrowDown(u, x);
      GrowOfFloor(x);
    } else if p < V.MIN_VOL {
      MixedGrowthFloored(u, x, e);
    } else {
      MixedShiftFloored(u, x, e);
    }
  }

  lemma NodeMovesCommute(a: V.Shape, b: V.Shape, u: real, x: real, y: real)
    requires u >= V.MIN_VOL
    ensures NodeMove(b, NodeMove(a, u, x), y) == NodeMove(a, NodeMove(b, u, y), x) <==> NodeSwappable(a, b, u, x, y)
  {
    if Multiplies(a) == Multiplies(b) {
      AlikeMovesCommute(Multiplies(a), u, x, y);
    } else if Multiplies(a) {
      MixedMovesCommute(u, x, y);
    } else {
      MixedMovesCommute(u, y, x);
    }
  }

  // ----- a name with a surface of its class -----

  function ShockedGridOf(grid: map<V.GridKey, real>, shape: V.Shape, amount: real): map<V.GridKey, real> {
    map k | k in grid :: NodeMove(shape, V.Floor(grid[k]), AmountAt(shape, k, amount))
  }

  lemma GridIs(grid: map<V.GridKey, real>, shape: V.Shape, amount: real)
    requires V.KnownGrid(grid)
    ensures V.GridOf(V.ShockPoints(V.Points(grid), shape, amount)) == ShockedGridOf(grid, shape, amount)
  {
    var shocked := V.GridOf(V.ShockPoints(V.Points(grid), shape, amount));
    forall k | k in shocked
      ensures k in grid
    {
      V.ShockedNodes(grid, shape, amount, k);
    }
    forall k | k in grid
      ensures k in shocked && shocked[k] == ShockedGridOf(grid, shape, amount)[k]
    {
      V.ShockedGrid(grid, shape, amount, k);
      NodeShocked(k, grid[k], shape, amount);
    }
  }

  /** A payload as a shock leaves it: its number is the at-the-money vol of its grid. */
  ghost function PayloadOf(name: string, assetClass: string, grid: map<V.GridKey, real>): V.Payload
    requires V.KnownGrid(grid) && grid != map[]
  {
    V.Payload(name, assetClass, V.AtmVol(V.Points(grid), "1Y"), grid)
  }

  lemma ShockedPayload(p: V.Payload, name: string, shape: V.Shape, amount: real)
    requires V.KnownGrid(p.grid) && p.grid != map[]
    ensures var grid := ShockedGridOf(p.grid, shape, amount);
      && V.KnownGrid(grid) && grid != map[] && grid.Keys == p.grid.Keys
      && ShockSurface(p, name, shape, amount) == Ok(PayloadOf(if p.name == "" then name else p.name, p.assetClass, grid))
  {
    var grid, points := ShockedGridOf(p.grid, shape, amount), V.ShockPoints(V.Points(p.grid), shape, amount);
    GridIs(p.grid, shape, amount);
    V.PointsProper(p.grid);
    V.ShockKeepsProper(V.Points(p.grid), shape, amount);
    V.RoundTrip(points);
    assert grid.Keys == p.grid.Keys;
    var k :| k in p.grid;
    assert k in grid;
  }

  function GridTwice(grid: map<V.GridKey, real>, a: V.Shape, b: V.Shape, x: real, y: real): map<V.GridKey, real> {
    map k | k in grid :: NodeMove(b, NodeMove(a, V.Floor(grid[k]), AmountAt(a, k, x)), AmountAt(b, k, y))
  }

  lemma TwiceIs(grid: map<V.GridKey, real>, a: V.Shape, b: V.Shape, x: real, y: real)
    ensures ShockedGridOf(ShockedGridOf(grid, a, x), b, y) == GridTwice(grid, a, b, x, y)
  {
    var once := ShockedGridOf(grid, a, x);
    forall k | k in grid
      ensures V.Floor(once[k]) == once[k]
    {
      FloorAgain(Nudged(Multiplies(a), V.Floor(grid[k]), AmountAt(a, k, x)));
    }
  }

  lemma FloorAgain(v: real)
    ensures V.Floor(V.Floor(v)) == V.Floor(v)
  {
  }

  ghost predicate ShockableSurface(m: Marks, c: VolClass, name: string) {
    && name in VolsOf(m, c) && HasSurface(m.volSurfaces, name, ClassName(c))
    && V.KnownGrid(m.volSurfaces[name].grid) && m.volSurfaces[name].grid != map[]
  }

  lemma SurfaceTwice(q: V.Payload, name: string, a: V.Shape, b: V.Shape, x: real, y: real) returns (first: V.Payload, p: V.Payload)
    requires V.KnownGrid(q.grid) && q.grid != map[]
    ensures ShockSurface(q, name, a, x) == Ok(first) && ShockSurface(first, name, b, y) == Ok(p)
    ensures first.assetClass == q.assetClass
    ensures p.grid == GridTwice(q.grid, a, b, x, y) && V.KnownGrid(p.grid) && p.grid != map[]
    ensures p == PayloadOf(if q.name == "" then name else q.name, q.assetClass, p.grid)
  {
    ShockedPayload(q, name, a, x);
    first := ShockSurface(q, name, a, x).value;
    ShockedPayload(first, name, b, y);
    p := ShockSurface(first, name, b, y).value;
    TwiceIs(q.grid, a, b, x, y);
  }

  lemma StagedSurface(vols: map<string, real>, surfaces: map<string, V.Payload>, name: string, assetClass: string, shape: V.Shape, x: real, p: V.Payload)
    requires name in vols && HasSurface(surfaces, name, assetClass) && ShockSurface(surfaces[name], name, shape, x) == Ok(p)
    ensures ShockVol(vols, surfaces, name, assetClass, shape, x) == Ok((vols[name := p.atmVol], surfaces[name := p]))
  {
  }

  lemma StagedAgain(vols: map<string, real>, surfaces: map<string, V.Payload>, name: string, assetClass: string, shape: V.Shape, y: real,
                    first: V.Payload, p: V.Payload)
    requires name in vols && Lower(first.assetClass) == assetClass && ShockSurface(first, name, shape, y) == Ok(p)
    ensures ShockVol(vols[name := first.atmVol], surfaces[name := first], name, assetClass, shape, y)
         == Ok((vols[name := p.atmVol], surfaces[name := p]))
  {
    StagedSurface(vols[name := first.atmVol], surfaces[name := first], name, assetClass, shape, y, p);
    assert vols[name := first.atmVol][name := p.atmVol] == vols[name := p.atmVol];
    assert surfaces[name := first][name := p] == surfaces[name := p];
  }

  lemma StagedTwice(m: Marks, c: VolClass, name: string, b: Bucket, d: Bucket, x: real, y: real, first: V.Payload, p: V.Payload)
    requires name in VolsOf(m, c) && HasSurface(m.volSurfaces, name, ClassName(c))
    requires first.assetClass == m.volSurfaces[name].assetClass
    requires ShockSurface(m.volSurfaces[name], name, ShapeIn(b), x) == Ok(first)
    requires ShockSurface(first, name, ShapeIn(d), y) == Ok(p)
    ensures ApplyMarks(m, [Shock(FactorIn(c, name, b), x), Shock(FactorIn(c, name, d), y)])
         == Ok(WithVols(m, c, VolsOf(m, c)[name := p.atmVol], m.volSurfaces[name := p]))
  {
    var vols, surfaces := VolsOf(m, c), m.volSurfaces;
    StagedSurface(vols, surfaces, name, ClassName(c), ShapeIn(b), x, first);
    StagedAgain(vols, surfaces, name, ClassName(c), ShapeIn(d), y, first, p);
    TwoVolShocks(m, c, name, b, d, x, y, (vols[name := first.atmVol], surfaces[name := first]),
                 (vols[name := p.atmVol], surfaces[name := p]));
  }

  /** The payload two shocks leave, and the marks with it. */
  lemma SurfaceShocks(m: Marks, c: VolClass, name: string, b: Bucket, d: Bucket, x: real, y: real) returns (p: V.Payload)
    requires ShockableSurface(m, c, name)
    ensures p.grid == GridTwice(m.volSurfaces[name].grid, ShapeIn(b), ShapeIn(d), x, y)
    ensures V.KnownGrid(p.grid) && p.grid != map[]
    ensures var q := m.volSurfaces[name];
      p == PayloadOf(if q.name == "" then name else q.name, q.assetClass, p.grid)
    ensures ApplyMarks(m, [Shock(FactorIn(c, name, b), x), Shock(FactorIn(c, name, d), y)])
         == Ok(WithVols(m, c, VolsOf(m, c)[name := p.atmVol], m.volSurfaces[name := p]))
  {
    var first;
    first, p := SurfaceTwice(m.volSurfaces[name], name, ShapeIn(b), ShapeIn(d), x, y);
    StagedTwice(m, c, name, b, d, x, y, first, p);
  }

  /** Every node ends the same in either order. */
  predicate GridSwappable(grid: map<V.GridKey, real>, a: V.Shape, b: V.Shape, x: real, y: real) {
    forall k :: k in grid ==> NodeSwappable(a, b, V.Floor(grid[k]), AmountAt(a, k, x), AmountAt(b, k, y))
  }

  lemma GridsSwap(grid: map<V.GridKey, real>, a: V.Shape, b: V.Shape, x: real, y: real)
    ensures GridTwice(grid, a, b, x, y) == GridTwice(grid, b, a, y, x) <==> GridSwappable(grid, a, b, x, y)
  {
    var there, back := GridTwice(grid, a, b, x, y), GridTwice(grid, b, a, y, x);
    forall k | k in grid
      ensures there[k] == back[k] <==> NodeSwappable(a, b, V.Floor(grid[k]), AmountAt(a, k, x), AmountAt(b, k, y))
    {
      NodeMovesCommute(a, b, V.Floor(grid[k]), AmountAt(a, k, x), AmountAt(b, k, y));
    }
    assert there.Keys == grid.Keys == back.Keys;
  }

  /** With a surface, for any two vol shocks of its name, of one shape or of two: exactly when every node of the surface allows it. */
  lemma SurfaceShocksCommuteExactly(m: Marks, c: VolClass, name: string, b: Bucket, d: Bucket, x: real, y: real)
    requires ShockableSurface(m, c, name)
    ensures var f, g := FactorIn(c, name, b), FactorIn(c, name, d);
      ApplyMarks(m, [Shock(f, x), Shock(g, y)]) == ApplyMarks(m, [Shock(g, y), Shock(f, x)])
      <==> GridSwappable(m.volSurfaces[name].grid, ShapeIn(b), ShapeIn(d), x, y)
  {
    var vols, surfaces := VolsOf(m, c), m.volSurfaces;
    var p := SurfaceShocks(m, c, name, b, d, x, y);
    var q := SurfaceShocks(m, c, name, d, b, y, x);
    GridsSwap(surfaces[name].grid, ShapeIn(b), ShapeIn(d), x, y);
    VolsDiffer(m, c, vols[name := p.atmVol], surfaces[name := p], vols[name := q.atmVol], surfaces[name := q]);
    assert surfaces[name := p][name] == p && surfaces[name := q][name] == q;
  }

  /** Far from the floor a relative and a skew shock of a tenth each end at 0.24 or 0.242, by their order. */
  lemma GrowthAndSkewDoNotCommute()
    ensures NodeMove(V.Skew, NodeMove(V.Relative, 0.2, 0.1), AmountAt(V.Skew, ("1Y", 1.2), 0.1)) == 0.24
    ensures NodeMove(V.Relative, NodeMove(V.Skew, 0.2, AmountAt(V.Skew, ("1Y", 1.2), 0.1)), 0.1) == 0.242
  {
  }
}
