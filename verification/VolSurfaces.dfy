/** Implied-vol surfaces over expiry and moneyness (market/vol_surfaces.py). */
module VolSurfaces {
  import opened Wrappers
  import opened RealMath
  import opened Vectors
  import opened SortedSets
  import opened Curves

  type GridKey = (string, real)

  const EXPIRY_YEARS: map<string, real> := map["1M" := 1.0 / 12.0, "3M" := 0.25, "6M" := 0.5, "1Y" := 1.0, "2Y" := 2.0]

  const MIN_VOL := 0.000001

  const TOLERANCE := 0.000000000001

  datatype VolPoint = VolPoint(expiry: string, expiryYears: real, moneyness: real, vol: real)

  /** A snapshot's surface payload. */
  datatype Payload = Payload(name: string, assetClass: string, atmVol: real, grid: map<GridKey, real>)

  function Floor(v: real): real { Max(MIN_VOL, v) }

  predicate KnownGrid(grid: map<GridKey, real>) {
    forall k :: k in grid ==> k.0 in EXPIRY_YEARS
  }

  function SortYears(expiry: string): real {
    if expiry in EXPIRY_YEARS then EXPIRY_YEARS[expiry] else 0.0
  }

  predicate KeyLess(a: GridKey, b: GridKey) {
    SortYears(a.0) < SortYears(b.0) || (SortYears(a.0) == SortYears(b.0) && a.1 < b.1)
  }

  lemma LabelOfYears(a: string, b: string)
    requires a in EXPIRY_YEARS && b in EXPIRY_YEARS && EXPIRY_YEARS[a] == EXPIRY_YEARS[b]
    ensures a == b
  {
    assert a in ["1M", "3M", "6M", "1Y", "2Y"] && b in ["1M", "3M", "6M", "1Y", "2Y"];
  }

  lemma KeysOrdered(keys: set<GridKey>)
    requires forall k :: k in keys ==> k.0 in EXPIRY_YEARS
    ensures StrictOrder(KeyLess, keys)
  {
    forall a, b | a in keys && b in keys
      ensures KeyLess(a, b) || a == b || KeyLess(b, a)
    {
      if SortYears(a.0) == SortYears(b.0) {
        LabelOfYears(a.0, b.0);
      }
    }
  }

  function PointAt(k: GridKey, vol: real): VolPoint {
    VolPoint(k.0, SortYears(k.0), k.1, Floor(vol))
  }

  function PointsAt(keys: seq<GridKey>, grid: map<GridKey, real>): (r: seq<VolPoint>)
    requires forall k :: k in keys ==> k in grid
    ensures |r| == |keys|
  {
    seq(|keys|, i requires 0 <= i < |keys| => PointAt(keys[i], grid[keys[i]]))
  }

  /** The points of VolSurface.from_grid, in its sort order. */
  ghost function Points(grid: map<GridKey, real>): (r: seq<VolPoint>)
    requires KnownGrid(grid)
    ensures |r| == |grid.Keys|
  {
    PointsOf(grid.Keys, grid)
  }

  lemma SortedStep(keys: set<GridKey>, k: GridKey)
    requires forall x :: x in keys ==> x.0 in EXPIRY_YEARS
    requires k in keys && forall x :: x in keys && x != k ==> KeyLess(k, x)
    ensures StrictOrder(KeyLess, keys) && StrictOrder(KeyLess, keys - {k})
    ensures Sorted(KeyLess, keys) == [k] + Sorted(KeyLess, keys - {k})
    ensures forall x :: x in Sorted(KeyLess, keys - {k}) <==> x in keys - {k}
  {
    KeysOrdered(keys);
    KeysOrdered(keys - {k});
    SortedLists(KeyLess, keys - {k});
    assert IsLeast(KeyLess, keys, k);
    var m := Least(KeyLess, keys);
    assert m == k;
  }

  lemma LeastKey(keys: set<GridKey>)
    requires keys != {} && forall x :: x in keys ==> x.0 in EXPIRY_YEARS
    ensures exists k :: k in keys && forall x :: x in keys && x != k ==> KeyLess(k, x)
  {
    KeysOrdered(keys);
    LeastExists(KeyLess, keys);
    var k :| IsLeast(KeyLess, keys, k);
  }

  /** Points of the keys of a part of the grid, in order. */
  ghost function PointsOf(keys: set<GridKey>, grid: map<GridKey, real>): (r: seq<VolPoint>)
    requires KnownGrid(grid) && keys <= grid.Keys
    ensures |r| == |keys|
  {
    KeysOrdered(keys);
    SortedLists(KeyLess, keys);
    PointsAt(Sorted(KeyLess, keys), grid)
  }

  lemma PointsStep(keys: set<GridKey>, grid: map<GridKey, real>, k: GridKey)
    requires KnownGrid(grid) && keys <= grid.Keys
    requires k in keys && forall x :: x in keys && x != k ==> KeyLess(k, x)
    ensures PointsOf(keys, grid) == [PointAt(k, grid[k])] + PointsOf(keys - {k}, grid)
  {
    SortedStep(keys, k);
    PointsCons(k, Sorted(KeyLess, keys - {k}), grid);
  }

  lemma PointsCons(k: GridKey, q: seq<GridKey>, grid: map<GridKey, real>)
    requires k in grid && forall x :: x in q ==> x in grid
    ensures forall x :: x in [k] + q ==> x in grid
    ensures PointsAt([k] + q, grid) == [PointAt(k, grid[k])] + PointsAt(q, grid)
  {
  }

  /** VolSurface.from_grid: grid keys in order, floored; unknown labels and an empty grid raise. */
  method FromGrid(grid: map<GridKey, real>) returns (r: Result<seq<VolPoint>, string>)
    ensures r.Ok? <==> KnownGrid(grid) && grid != map[]
    ensures r.Ok? ==> r.value == Points(grid)
  {
    if !KnownGrid(grid) {
      return Err("unknown expiry label");
    }
    var points: seq<VolPoint> := [];
    var rest := grid.Keys;
    while rest != {}
      invariant rest <= grid.Keys
      invariant points + PointsOf(rest, grid) == PointsOf(grid.Keys, grid)
    {
      LeastKey(rest);
      var k :| k in rest && forall x :: x in rest && x != k ==> KeyLess(k, x);
      PointsStep(rest, grid, k);
      points := points + [PointAt(k, grid[k])];
      rest := rest - {k};
    }
    assert points == Points(grid);
    if points == [] {
      return Err("surface requires at least one point");
    }
    r := Ok(points);
  }

  // ----- at-the-money vol -----

  function Vols(points: seq<VolPoint>): (r: Vec)
    ensures |r| == |points|
  {
    seq(|points|, i requires 0 <= i < |points| => points[i].vol)
  }

  predicate IsAtm(p: VolPoint, expiry: string) {
    p.expiry == expiry && -TOLERANCE < p.moneyness - 1.0 < TOLERANCE
  }

  function FirstAtm(points: seq<VolPoint>, expiry: string): Option<real> {
    if points == [] then None
    else if IsAtm(points[0], expiry) then Some(points[0].vol)
    else FirstAtm(points[1..], expiry)
  }

  /** VolSurface.atm_vol: the first at-the-money point of the expiry, otherwise the mean. */
  function AtmVol(points: seq<VolPoint>, expiry: string): real
    requires points != []
  {
    FirstAtm(points, expiry).GetOr(Mean(Vols(points)))
  }

  // ----- shocks -----

  datatype Shape = Relative | ExpiryRelative(expiry: string) | Skew | Term

  function ShockedVol(p: VolPoint, shape: Shape, amount: real): real {
    match shape
    case Relative => Grow(p.vol, amount)
    case ExpiryRelative(e) => if p.expiry == e then Grow(p.vol, amount) else p.vol
    case Skew => p.vol + amount * (p.moneyness - 1.0)
    case Term => p.vol + amount * p.expiryYears
  }

  /** VolSurface._map_vols. */
  function ShockPoints(points: seq<VolPoint>, shape: Shape, amount: real): (r: seq<VolPoint>)
    ensures |r| == |points|
  {
    seq(|points|, i requires 0 <= i < |points| => points[i].(vol := Floor(ShockedVol(points[i], shape, amount))))
  }

  /** The grid of VolSurface.to_dict. */
  function GridOf(points: seq<VolPoint>): map<GridKey, real> {
    if points == [] then map[]
    else
      var p := points[|points| - 1];
      GridOf(points[..|points| - 1])[(p.expiry, p.moneyness) := p.vol]
  }

  function KeyOf(p: VolPoint): GridKey { (p.expiry, p.moneyness) }

  ghost predicate DistinctKeys(points: seq<VolPoint>) {
    forall i, j :: 0 <= i < j < |points| ==> KeyOf(points[i]) != KeyOf(points[j])
  }

  lemma {:induction false} GridOfPoints(points: seq<VolPoint>)
    requires DistinctKeys(points)
    ensures forall i :: 0 <= i < |points| ==> KeyOf(points[i]) in GridOf(points) && GridOf(points)[KeyOf(points[i])] == points[i].vol
    ensures forall k :: k in GridOf(points) ==> exists i :: 0 <= i < |points| && KeyOf(points[i]) == k
  {
    if points != [] {
      var rest := points[..|points| - 1];
      GridOfPoints(rest);
      forall k | k in GridOf(points)
        ensures exists i :: 0 <= i < |points| && KeyOf(points[i]) == k
      {
        if k in GridOf(rest) {
          var i :| 0 <= i < |rest| && KeyOf(rest[i]) == k;
          assert KeyOf(points[i]) == k;
        } else {
          assert KeyOf(points[|points| - 1]) == k;
        }
      }
    }
  }

  /** Point i is the i-th key of the grid. */
  lemma PointsAre(grid: map<GridKey, real>)
    requires KnownGrid(grid)
    ensures StrictOrder(KeyLess, grid.Keys)
    ensures var keys, points := Sorted(KeyLess, grid.Keys), Points(grid);
      && |points| == |keys| && Ascending(KeyLess, keys)
      && (forall k :: k in keys <==> k in grid)
      && forall i :: 0 <= i < |keys| ==> keys[i] in grid && points[i] == PointAt(keys[i], grid[keys[i]])
  {
    KeysOrdered(grid.Keys);
    SortedLists(KeyLess, grid.Keys);
  }

  lemma PointsDistinct(grid: map<GridKey, real>)
    requires KnownGrid(grid)
    ensures DistinctKeys(Points(grid))
  {
    PointsAre(grid);
    var keys, points := Sorted(KeyLess, grid.Keys), Points(grid);
    forall i, j | 0 <= i < j < |points|
      ensures KeyOf(points[i]) != KeyOf(points[j])
    {
      assert KeyLess(keys[i], keys[j]);
    }
  }

  /** The points are the grid's nodes, each once. */
  lemma PointsList(grid: map<GridKey, real>)
    requires KnownGrid(grid)
    ensures forall i :: 0 <= i < |Points(grid)| ==>
      KeyOf(Points(grid)[i]) in grid && Points(grid)[i] == PointAt(KeyOf(Points(grid)[i]), grid[KeyOf(Points(grid)[i])])
    ensures forall k :: k in grid ==> PointAt(k, grid[k]) in Points(grid)
  {
    PointsAre(grid);
    var keys, points := Sorted(KeyLess, grid.Keys), Points(grid);
    forall k | k in grid
      ensures PointAt(k, grid[k]) in points
    {
      var i :| 0 <= i < |keys| && keys[i] == k;
      assert points[i] == PointAt(k, grid[k]);
    }
  }

  lemma ShockedKeys(points: seq<VolPoint>, shape: Shape, amount: real)
    requires DistinctKeys(points)
    ensures DistinctKeys(ShockPoints(points, shape, amount))
  {
    var shocked := ShockPoints(points, shape, amount);
    forall i, j | 0 <= i < j < |shocked|
      ensures KeyOf(shocked[i]) != KeyOf(shocked[j])
    {
      assert KeyOf(shocked[i]) == KeyOf(points[i]) && KeyOf(shocked[j]) == KeyOf(points[j]);
    }
  }

  lemma ShockedAt(points: seq<VolPoint>, shape: Shape, amount: real, i: nat)
    requires DistinctKeys(points) && i < |points|
    ensures var shocked := GridOf(ShockPoints(points, shape, amount));
      KeyOf(points[i]) in shocked && shocked[KeyOf(points[i])] == Floor(ShockedVol(points[i], shape, amount))
  {
    var shocked := ShockPoints(points, shape, amount);
    ShockedKeys(points, shape, amount);
    GridOfPoints(shocked);
    assert KeyOf(shocked[i]) == KeyOf(points[i]);
  }

  /** The grid of a shocked surface: each node floored, shocked and floored again. */
  lemma ShockedGrid(grid: map<GridKey, real>, shape: Shape, amount: real, k: GridKey)
    requires KnownGrid(grid) && k in grid
    ensures var shocked := GridOf(ShockPoints(Points(grid), shape, amount));
      k in shocked && shocked[k] == Floor(ShockedVol(PointAt(k, grid[k]), shape, amount))
  {
    var points := Points(grid);
    PointsList(grid);
    PointsDistinct(grid);
    var i :| 0 <= i < |points| && points[i] == PointAt(k, grid[k]);
    ShockedAt(points, shape, amount, i);
  }

  /** No node is added. */
  lemma ShockedNodes(grid: map<GridKey, real>, shape: Shape, amount: real, k: GridKey)
    requires KnownGrid(grid) && k in GridOf(ShockPoints(Points(grid), shape, amount))
    ensures k in grid
  {
    var points := Points(grid);
    var shocked := ShockPoints(points, shape, amount);
    PointsList(grid);
    PointsDistinct(grid);
    ShockedKeys(points, shape, amount);
    GridOfPoints(shocked);
    var i :| 0 <= i < |shocked| && KeyOf(shocked[i]) == k;
    assert KeyOf(points[i]) == k;
  }

  // ----- to_dict and back -----

  /** Points as from_grid makes them: ascending, with the years of their label, floored. */
  ghost predicate Proper(points: seq<VolPoint>) {
    && (forall i :: 0 <= i < |points| ==> points[i].expiry in EXPIRY_YEARS && points[i] == PointAt(KeyOf(points[i]), points[i].vol))
    && (forall i, j :: 0 <= i < j < |points| ==> KeyLess(KeyOf(points[i]), KeyOf(points[j])))
  }

  lemma PointsProper(grid: map<GridKey, real>)
    requires KnownGrid(grid)
    ensures Proper(Points(grid))
  {
    PointsAre(grid);
    var keys, points := Sorted(KeyLess, grid.Keys), Points(grid);
    forall i | 0 <= i < |points|
      ensures KeyOf(points[i]) == keys[i] && points[i] == PointAt(KeyOf(points[i]), points[i].vol)
    {
      FloorTwice(keys[i], grid[keys[i]]);
    }
  }

  lemma FloorTwice(k: GridKey, vol: real)
    ensures PointAt(k, PointAt(k, vol).vol) == PointAt(k, vol) && KeyOf(PointAt(k, vol)) == k
  {
  }

  lemma ShockKeepsProper(points: seq<VolPoint>, shape: Shape, amount: real)
    requires Proper(points)
    ensures Proper(ShockPoints(points, shape, amount))
  {
    var shocked := ShockPoints(points, shape, amount);
    forall i, j | 0 <= i < j < |shocked|
      ensures KeyLess(KeyOf(shocked[i]), KeyOf(shocked[j]))
    {
      assert KeyOf(shocked[i]) == KeyOf(points[i]) && KeyOf(shocked[j]) == KeyOf(points[j]);
    }
  }

  function KeysOf(points: seq<VolPoint>): (r: seq<GridKey>)
    ensures |r| == |points|
  {
    seq(|points|, i requires 0 <= i < |points| => KeyOf(points[i]))
  }

  lemma ProperKeys(points: seq<VolPoint>)
    requires Proper(points)
    ensures DistinctKeys(points) && Ascending(KeyLess, KeysOf(points))
  {
    forall i, j | 0 <= i < j < |points|
      ensures KeyOf(points[i]) != KeyOf(points[j])
    {
      assert KeyLess(KeyOf(points[i]), KeyOf(points[j]));
    }
  }

  lemma KeysListed(points: seq<VolPoint>)
    requires Proper(points)
    ensures KnownGrid(GridOf(points))
    ensures forall k :: k in KeysOf(points) <==> k in GridOf(points).Keys
  {
    var keys := KeysOf(points);
    ProperKeys(points);
    GridOfPoints(points);
    forall k | k in GridOf(points)
      ensures k in keys && k.0 in EXPIRY_YEARS
    {
      var i :| 0 <= i < |points| && KeyOf(points[i]) == k;
      assert keys[i] == k;
    }
  }

  lemma NodesAgain(points: seq<VolPoint>, i: nat)
    requires Proper(points) && i < |points| && KnownGrid(GridOf(points))
    requires KeyOf(points[i]) in GridOf(points)
    ensures PointAt(KeyOf(points[i]), GridOf(points)[KeyOf(points[i])]) == points[i]
  {
    ProperKeys(points);
    GridOfPoints(points);
  }

  /** A surface written to a payload and rebuilt from it is the same surface. */
  lemma RoundTrip(points: seq<VolPoint>)
    requires Proper(points)
    ensures KnownGrid(GridOf(points)) && Points(GridOf(points)) == points
  {
    var grid, keys := GridOf(points), KeysOf(points);
    ProperKeys(points);
    KeysListed(points);
    KeysOrdered(grid.Keys);
    SortedUnique(KeyLess, grid.Keys, keys);
    PointsAre(grid);
    forall i | 0 <= i < |points|
      ensures Points(grid)[i] == points[i]
    {
      assert keys[i] == KeyOf(points[i]);
      assert keys[i] in grid;
      NodesAgain(points, i);
    }
  }

  // ----- interpolation -----

  ghost function Axis(values: set<real>): (r: Vec)
    ensures |r| == |values| && (forall x :: x in r <==> x in values) && Increasing(r)
  {
    SortedLists((a: real, b: real) => a < b, values);
    Sorted((a: real, b: real) => a < b, values)
  }

  function ExpiryAxis(points: seq<VolPoint>): set<real> {
    set p | p in points :: p.expiryYears
  }

  function MoneynessAxis(points: seq<VolPoint>): set<real> {
    set p | p in points :: p.moneyness
  }

  /** _bracket: the neighbours of x among ascending values, both the same at and beyond the ends. */
  function Bracket(values: Vec, x: real): (r: (real, real))
    requires values != [] && Increasing(values)
    ensures r.0 in values && r.1 in values && r.0 <= r.1
    ensures r.0 < r.1 ==> r.0 < x <= r.1
  {
    var last := |values| - 1;
    if x <= values[0] then (values[0], values[0])
    else if x >= values[last] then (values[last], values[last])
    else
      var k := Segment(values, 0, x);
      (values[k], values[k + 1])
  }

  function Clamp(x: real, values: Vec): real
    requires values != []
  {
    Min(Max(x, values[0]), values[|values| - 1])
  }

  predicate Near(a: real, b: real) {
    -TOLERANCE < a - b < TOLERANCE
  }

  function FindExact(points: seq<VolPoint>, t: real, m: real): Option<real> {
    if points == [] then None
    else if points[0].expiryYears == t && points[0].moneyness == m then Some(points[0].vol)
    else FindExact(points[1..], t, m)
  }

  function FindNear(points: seq<VolPoint>, t: real, m: real): Option<real> {
    if points == [] then None
    else if Near(points[0].expiryYears, t) && Near(points[0].moneyness, m) then Some(points[0].vol)
    else FindNear(points[1..], t, m)
  }

  /** The vol at a grid node, or at a point as good as there; a hole in the grid raises. */
  function Node(points: seq<VolPoint>, t: real, m: real): Option<real> {
    match FindExact(points, t, m)
    case Some(v) => Some(v)
    case None => FindNear(points, t, m)
  }

  function Share(low: real, high: real, x: real): real
    requires low <= high
  {
    if low == high then 0.0 else Weight(low, high, x)
  }

  function Blend(v00: real, v01: real, v10: real, v11: real, wt: real, wm: real): real {
    Lerp(Lerp(v00, v01, wm), Lerp(v10, v11, wm), wt)
  }

  /** VolSurface.vol: bilinear inside the grid, flat outside it. */
  ghost function VolAt(points: seq<VolPoint>, expiryYears: real, moneyness: real): Result<real, string> {
    if points == [] then Err("empty surface")
    else
      assert points[0] in points && points[0].expiryYears in ExpiryAxis(points) && points[0].moneyness in MoneynessAxis(points);
      var expiries, moneynesses := Axis(ExpiryAxis(points)), Axis(MoneynessAxis(points));
      assert expiries != [] && moneynesses != [];
      var t, m := Clamp(expiryYears, expiries), Clamp(moneyness, moneynesses);
      var (t0, t1) := Bracket(expiries, t);
      var (m0, m1) := Bracket(moneynesses, m);
      match (Node(points, t0, m0), Node(points, t0, m1), Node(points, t1, m0), Node(points, t1, m1))
      case (Some(v00), Some(v01), Some(v10), Some(v11)) => Ok(Blend(v00, v01, v10, v11, Share(t0, t1, t), Share(m0, m1, m)))
      case _ => Err("missing grid node")
  }

  lemma {:induction false} FoundBounded(points: seq<VolPoint>, t: real, m: real, lo: real, hi: real)
    requires forall i :: 0 <= i < |points| ==> lo <= points[i].vol <= hi
    ensures FindExact(points, t, m).Some? ==> lo <= FindExact(points, t, m).value <= hi
    ensures FindNear(points, t, m).Some? ==> lo <= FindNear(points, t, m).value <= hi
  {
    if points != [] {
      FoundBounded(points[1..], t, m, lo, hi);
    }
  }

  lemma ShareBetween(low: real, high: real, x: real)
    requires low <= high && (low < high ==> low < x <= high)
    ensures 0.0 <= Share(low, high, x) <= 1.0
  {
    if low < high {
      WeightBetween(low, high, x);
    }
  }

  lemma LerpBounded(a: real, b: real, w: real, lo: real, hi: real)
    requires lo <= a <= hi && lo <= b <= hi && 0.0 <= w <= 1.0
    ensures lo <= Lerp(a, b, w) <= hi
  {
    if a <= b {
      Between(a, b, w);
    } else {
      Between(b, a, 1.0 - w);
      LerpReversed(a, b, w);
    }
  }

  lemma LerpReversed(a: real, b: real, w: real)
    ensures Lerp(a, b, w) == Lerp(b, a, 1.0 - w)
  {
    assert (1.0 - w) * (a - b) == (a - b) - w * (a - b);
    assert w * (b - a) == -(w * (a - b));
  }

  /** Interpolation never leaves the range of the surface, so a floored surface prices with a positive vol. */
  lemma VolBounded(points: seq<VolPoint>, expiryYears: real, moneyness: real, lo: real, hi: real)
    requires forall i :: 0 <= i < |points| ==> lo <= points[i].vol <= hi
    ensures VolAt(points, expiryYears, moneyness).Ok? ==> lo <= VolAt(points, expiryYears, moneyness).value <= hi
  {
    if VolAt(points, expiryYears, moneyness).Ok? {
      var expiries, moneynesses := Axis(ExpiryAxis(points)), Axis(MoneynessAxis(points));
      var t, m := Clamp(expiryYears, expiries), Clamp(moneyness, moneynesses);
      var (t0, t1) := Bracket(expiries, t);
      var (m0, m1) := Bracket(moneynesses, m);
      var wt, wm := Share(t0, t1, t), Share(m0, m1, m);
      ShareBetween(t0, t1, t);
      ShareBetween(m0, m1, m);
      FoundBounded(points, t0, m0, lo, hi);
      FoundBounded(points, t0, m1, lo, hi);
      FoundBounded(points, t1, m0, lo, hi);
      FoundBounded(points, t1, m1, lo, hi);
      var v0, v1 := Lerp(Node(points, t0, m0).value, Node(points, t0, m1).value, wm),
                    Lerp(Node(points, t1, m0).value, Node(points, t1, m1).value, wm);
      LerpBounded(Node(points, t0, m0).value, Node(points, t0, m1).value, wm, lo, hi);
      LerpBounded(Node(points, t1, m0).value, Node(points, t1, m1).value, wm, lo, hi);
      LerpBounded(v0, v1, wt, lo, hi);
    }
  }
}
