/**
 * Which nodes of a surface a vol shock moves, and by how much, bucket by bucket, as the marks after the shock show it
 * (domain/models.py: _bump_vol_surface_payload, _stage_shock; market/vol_surfaces.py).
 */
module VolShapes {
  import opened Wrappers
  import opened Strings
  import opened RealMath
  import opened Vectors
  import opened Factors
  import opened Curves
  import opened Snapshots
  import V = VolSurfaces

  type NodeMove = (V.GridKey, real) -> real

  /** Every node is floored, moved and floored again; none is added or lost. */
  ghost predicate Becomes(before: V.Payload, after: V.Payload, move: NodeMove) {
    && after.grid.Keys == before.grid.Keys && after.assetClass == before.assetClass
    && forall k :: k in before.grid ==> after.grid[k] == V.Floor(move(k, V.Floor(before.grid[k])))
  }

  function GrowAll(amount: real): NodeMove {
    (k: V.GridKey, v: real) => v * (1.0 + amount)
  }

  function GrowLabel(expiry: string, amount: real): NodeMove {
    (k: V.GridKey, v: real) => if k.0 == expiry then v * (1.0 + amount) else v
  }

  /** Nothing at the money. */
  function Tilt(amount: real): NodeMove {
    (k: V.GridKey, v: real) => v + amount * (k.1 - 1.0)
  }

  function Slope(amount: real): NodeMove {
    (k: V.GridKey, v: real) => v + amount * V.SortYears(k.0)
  }

  /** A vol factor of a name of one class. */
  predicate Names(f: Factor, name: string, assetClass: string, expiry: string, moneyness: string) {
    || (f == EquityVol(name, expiry, moneyness) && assetClass == "equity")
    || (f == FXVol(name, expiry, moneyness) && assetClass == "fx")
  }

  function VolsOf(m: Marks, assetClass: string): map<string, real> {
    if assetClass == "fx" then m.fxVols else m.equityVols
  }

  function WithVols(m: Marks, assetClass: string, vols: map<string, real>): Marks {
    if assetClass == "fx" then m.(fxVols := vols) else m.(equityVols := vols)
  }

  lemma OnlyItsEquity(m: Marks, name: string, expiry: string, moneyness: string, amount: real, m': Marks)
    requires ApplyOne(m, Snapshots.Shock(EquityVol(name, expiry, moneyness), amount)) == Ok(m')
    ensures name in m.equityVols && name in m'.equityVols
    ensures if HasSurface(m.volSurfaces, name, "equity")
      then name in m'.volSurfaces
        && m' == m.(equityVols := m.equityVols[name := m'.equityVols[name]], volSurfaces := m.volSurfaces[name := m'.volSurfaces[name]])
      else m' == m.(equityVols := m.equityVols[name := V.Floor(Grow(m.equityVols[name], amount))])
  {
  }

  lemma OnlyItsPair(m: Marks, name: string, expiry: string, moneyness: string, amount: real, m': Marks)
    requires ApplyOne(m, Snapshots.Shock(FXVol(name, expiry, moneyness), amount)) == Ok(m')
    ensures name in m.fxVols && name in m'.fxVols
    ensures if HasSurface(m.volSurfaces, name, "fx")
      then name in m'.volSurfaces
        && m' == m.(fxVols := m.fxVols[name := m'.fxVols[name]], volSurfaces := m.volSurfaces[name := m'.volSurfaces[name]])
      else m' == m.(fxVols := m.fxVols[name := V.Floor(Grow(m.fxVols[name], amount))])
  {
  }

  /** A vol shock changes the vol of its name and its surface, if that is of its class, and nothing else. */
  lemma OnlyItsName(m: Marks, f: Factor, name: string, assetClass: string, expiry: string, moneyness: string, amount: real, m': Marks)
    requires Names(f, name, assetClass, expiry, moneyness) && ApplyOne(m, Snapshots.Shock(f, amount)) == Ok(m')
    ensures name in VolsOf(m, assetClass) && name in VolsOf(m', assetClass)
    ensures HasSurface(m.volSurfaces, name, assetClass) ==>
      && name in m'.volSurfaces
      && m' == WithVols(m, assetClass, VolsOf(m, assetClass)[name := VolsOf(m', assetClass)[name]]).(volSurfaces := m.volSurfaces[name := m'.volSurfaces[name]])
    ensures !HasSurface(m.volSurfaces, name, assetClass) ==>
      m' == WithVols(m, assetClass, VolsOf(m, assetClass)[name := V.Floor(Grow(VolsOf(m, assetClass)[name], amount))])
  {
    hide ApplyOne, Grow;
    if f.EquityVol? {
      OnlyItsEquity(m, name, expiry, moneyness, amount, m');
    } else {
      OnlyItsPair(m, name, expiry, moneyness, amount, m');
    }
  }

  lemma Surface(m: Marks, f: Factor, name: string, assetClass: string, expiry: string, moneyness: string, amount: real, m': Marks)
    requires Names(f, name, assetClass, expiry, moneyness) && HasSurface(m.volSurfaces, name, assetClass)
    requires ApplyOne(m, Snapshots.Shock(f, amount)) == Ok(m')
    ensures name in m'.volSurfaces && name in VolsOf(m', assetClass)
    ensures var grid := m.volSurfaces[name].grid;
      && V.KnownGrid(grid) && grid != map[]
      && m'.volSurfaces[name].grid == V.GridOf(V.ShockPoints(V.Points(grid), ShapeOf(expiry, moneyness), amount))
      && m'.volSurfaces[name].assetClass == m.volSurfaces[name].assetClass
      && VolsOf(m', assetClass)[name] == V.AtmVol(V.ShockPoints(V.Points(grid), ShapeOf(expiry, moneyness), amount), "1Y")
  {
  }

  lemma Reshaped(before: V.Payload, after: V.Payload, shape: V.Shape, amount: real, move: NodeMove)
    requires V.KnownGrid(before.grid) && after.assetClass == before.assetClass
    requires after.grid == V.GridOf(V.ShockPoints(V.Points(before.grid), shape, amount))
    requires forall k, v :: move(k, v) == V.ShockedVol(V.VolPoint(k.0, V.SortYears(k.0), k.1, v), shape, amount)
    ensures Becomes(before, after, move)
  {
    forall k | k in after.grid
      ensures k in before.grid
    {
      V.ShockedNodes(before.grid, shape, amount, k);
    }
    forall k | k in before.grid
      ensures k in after.grid && after.grid[k] == V.Floor(move(k, V.Floor(before.grid[k])))
    {
      V.ShockedGrid(before.grid, shape, amount, k);
      assert V.PointAt(k, before.grid[k]) == V.VolPoint(k.0, V.SortYears(k.0), k.1, V.Floor(before.grid[k]));
    }
  }

  predicate SkewBucket(moneyness: string) {
    Upper(moneyness) == "SKEW" || Upper(moneyness) == "SMILE_SKEW"
  }

  predicate TermBucket(expiry: string) {
    Upper(expiry) == "TERM" || Upper(expiry) == "TERM_STRUCTURE"
  }

  predicate LabelBucket(expiry: string, moneyness: string) {
    Upper(expiry) in {"1M", "3M", "6M", "1Y", "2Y"} && Upper(moneyness) in {"ATM", "GENERIC", "ALL", "PARALLEL"}
  }

  lemma ShapeIs(expiry: string, moneyness: string)
    ensures SkewBucket(moneyness) ==> ShapeOf(expiry, moneyness) == V.Skew
    ensures !SkewBucket(moneyness) && TermBucket(expiry) ==> ShapeOf(expiry, moneyness) == V.Term
    ensures !SkewBucket(moneyness) && !TermBucket(expiry) ==>
      ShapeOf(expiry, moneyness) == if LabelBucket(expiry, moneyness) then V.ExpiryRelative(Upper(expiry)) else V.Relative
  {
  }

  lemma MovesAre(amount: real, expiry: string, k: V.GridKey, v: real)
    ensures var p := V.VolPoint(k.0, V.SortYears(k.0), k.1, v);
      && Tilt(amount)(k, v) == V.ShockedVol(p, V.Skew, amount) && Slope(amount)(k, v) == V.ShockedVol(p, V.Term, amount)
      && GrowLabel(expiry, amount)(k, v) == V.ShockedVol(p, V.ExpiryRelative(expiry), amount) && GrowAll(amount)(k, v) == V.ShockedVol(p, V.Relative, amount)
  {
  }

  function MoveFor(shape: V.Shape, amount: real): NodeMove {
    match shape
    case Skew => Tilt(amount)
    case Term => Slope(amount)
    case ExpiryRelative(e) => GrowLabel(e, amount)
    case Relative => GrowAll(amount)
  }

  lemma MoveIs(shape: V.Shape, amount: real)
    ensures forall k, v :: MoveFor(shape, amount)(k, v) == V.ShockedVol(V.VolPoint(k.0, V.SortYears(k.0), k.1, v), shape, amount)
  {
    forall k: V.GridKey, v: real
      ensures MoveFor(shape, amount)(k, v) == V.ShockedVol(V.VolPoint(k.0, V.SortYears(k.0), k.1, v), shape, amount)
    {
      MovesAre(amount, if shape.ExpiryRelative? then shape.expiry else "", k, v);
    }
  }

  lemma SurfaceBecomes(m: Marks, f: Factor, name: string, assetClass: string, expiry: string, moneyness: string, amount: real, m': Marks, shape: V.Shape)
    requires Names(f, name, assetClass, expiry, moneyness) && HasSurface(m.volSurfaces, name, assetClass)
    requires ApplyOne(m, Snapshots.Shock(f, amount)) == Ok(m') && shape == ShapeOf(expiry, moneyness)
    ensures name in m'.volSurfaces && Becomes(m.volSurfaces[name], m'.volSurfaces[name], MoveFor(shape, amount))
  {
    hide ApplyOne, ShapeOf, Becomes, MoveFor;
    Surface(m, f, name, assetClass, expiry, moneyness, amount, m');
    MoveIs(shape, amount);
    Reshaped(m.volSurfaces[name], m'.volSurfaces[name], shape, amount, MoveFor(shape, amount));
  }

  lemma MoveForIs(e: string, amount: real)
    ensures MoveFor(V.Skew, amount) == Tilt(amount) && MoveFor(V.Term, amount) == Slope(amount)
    ensures MoveFor(V.ExpiryRelative(e), amount) == GrowLabel(e, amount) && MoveFor(V.Relative, amount) == GrowAll(amount)
  {
  }

  lemma HasOne(m: Marks, name: string, assetClass: string)
    requires HasSurface(m.volSurfaces, name, assetClass)
    ensures name in m.volSurfaces
  {
  }

  /**
   * The buckets a shock is read by, in upper case. A skew tilts the smile about the money, a term shock the term structure; a labelled expiry
   * with an at-the-money bucket grows the nodes of that label; every other bucket grows all nodes.
   */
  lemma VolShockByBucket(m: Marks, f: Factor, name: string, assetClass: string, expiry: string, moneyness: string, amount: real, m': Marks)
    requires Names(f, name, assetClass, expiry, moneyness) && HasSurface(m.volSurfaces, name, assetClass)
    requires ApplyOne(m, Snapshots.Shock(f, amount)) == Ok(m')
    ensures name in m'.volSurfaces
    ensures SkewBucket(moneyness) ==> Becomes(m.volSurfaces[name], m'.volSurfaces[name], Tilt(amount))
    ensures !SkewBucket(moneyness) && TermBucket(expiry) ==> Becomes(m.volSurfaces[name], m'.volSurfaces[name], Slope(amount))
    ensures !SkewBucket(moneyness) && !TermBucket(expiry) && LabelBucket(expiry, moneyness) ==>
      Becomes(m.volSurfaces[name], m'.volSurfaces[name], GrowLabel(Upper(expiry), amount))
    ensures !SkewBucket(moneyness) && !TermBucket(expiry) && !LabelBucket(expiry, moneyness) ==>
      Becomes(m.volSurfaces[name], m'.volSurfaces[name], GrowAll(amount))
  {
    HasOne(m, name, assetClass);
    hide *;
    SurfaceBecomes(m, f, name, assetClass, expiry, moneyness, amount, m', ShapeOf(expiry, moneyness));
    ShapeIs(expiry, moneyness);
    MoveForIs(Upper(expiry), amount);
  }

  // ----- the scalar vol beside the surface -----

  /** One node of the one-year expiry is at the money. */
  ghost predicate OneAtm(grid: map<V.GridKey, real>) {
    && ("1Y", 1.0) in grid
    && forall k :: k in grid && k.0 == "1Y" && -V.TOLERANCE < k.1 - 1.0 < V.TOLERANCE ==> k.1 == 1.0
  }

  lemma {:induction false} FirstAtmIs(points: seq<V.VolPoint>, v: real)
    requires exists i :: 0 <= i < |points| && V.IsAtm(points[i], "1Y")
    requires forall i :: 0 <= i < |points| && V.IsAtm(points[i], "1Y") ==> points[i].vol == v
    ensures V.FirstAtm(points, "1Y") == Some(v)
  {
    var i :| 0 <= i < |points| && V.IsAtm(points[i], "1Y");
    if !V.IsAtm(points[0], "1Y") {
      assert V.IsAtm(points[1..][i - 1], "1Y");
      FirstAtmIs(points[1..], v);
    }
  }

  /** Then the at-the-money vol of a shocked surface is the vol of that node. */
  lemma AtmIsNode(grid: map<V.GridKey, real>, shape: V.Shape, amount: real)
    requires V.KnownGrid(grid) && OneAtm(grid)
    ensures var points := V.ShockPoints(V.Points(grid), shape, amount);
      points != [] && ("1Y", 1.0) in V.GridOf(points) && V.AtmVol(points, "1Y") == V.GridOf(points)[("1Y", 1.0)]
  {
    var before, k := V.Points(grid), ("1Y", 1.0);
    var points := V.ShockPoints(before, shape, amount);
    V.PointsList(grid);
    V.PointsDistinct(grid);
    V.ShockedGrid(grid, shape, amount, k);
    var v := V.Floor(V.ShockedVol(V.PointAt(k, grid[k]), shape, amount));
    var j :| 0 <= j < |before| && before[j] == V.PointAt(k, grid[k]);
    assert V.IsAtm(points[j], "1Y");
    forall i | 0 <= i < |points| && V.IsAtm(points[i], "1Y")
      ensures points[i].vol == v
    {
      assert V.KeyOf(before[i]) in grid && V.KeyOf(before[i]).1 == 1.0;
      assert V.KeyOf(before[i]) == V.KeyOf(before[j]);
    }
    FirstAtmIs(points, v);
  }

  lemma {:induction false} NoAtm(points: seq<V.VolPoint>)
    requires forall i :: 0 <= i < |points| ==> !V.IsAtm(points[i], "1Y")
    ensures V.FirstAtm(points, "1Y") == None
  {
    if points != [] {
      NoAtm(points[1..]);
    }
  }

  /** The scalar vol after a shock is the one-year vol at the money, where the surface has that node, and otherwise the mean of its nodes. */
  lemma ScalarFollows(m: Marks, f: Factor, name: string, assetClass: string, expiry: string, moneyness: string, amount: real, m': Marks)
    requires Names(f, name, assetClass, expiry, moneyness) && HasSurface(m.volSurfaces, name, assetClass)
    requires ApplyOne(m, Snapshots.Shock(f, amount)) == Ok(m')
    ensures name in m'.volSurfaces && name in VolsOf(m', assetClass)
    ensures OneAtm(m.volSurfaces[name].grid) ==>
      ("1Y", 1.0) in m'.volSurfaces[name].grid && VolsOf(m', assetClass)[name] == m'.volSurfaces[name].grid[("1Y", 1.0)]
    ensures (forall k :: k in m.volSurfaces[name].grid && k.0 == "1Y" ==> !(-V.TOLERANCE < k.1 - 1.0 < V.TOLERANCE)) ==>
      exists points: seq<V.VolPoint> :: points != [] && V.DistinctKeys(points) && V.GridOf(points) == m'.volSurfaces[name].grid
        && VolsOf(m', assetClass)[name] == Mean(V.Vols(points))
  {
    Surface(m, f, name, assetClass, expiry, moneyness, amount, m');
    var grid, shape := m.volSurfaces[name].grid, ShapeOf(expiry, moneyness);
    var points := V.ShockPoints(V.Points(grid), shape, amount);
    if OneAtm(grid) {
      AtmIsNode(grid, shape, amount);
    }
    if forall k :: k in grid && k.0 == "1Y" ==> !(-V.TOLERANCE < k.1 - 1.0 < V.TOLERANCE) {
      V.PointsList(grid);
      V.PointsDistinct(grid);
      V.ShockedKeys(V.Points(grid), shape, amount);
      forall i | 0 <= i < |points|
        ensures !V.IsAtm(points[i], "1Y")
      {
        assert V.KeyOf(V.Points(grid)[i]) in grid;
      }
      NoAtm(points);
    }
  }

  /** The default factor of a scenario: the whole surface and the scalar grow by the amount. */
  lemma GenericShock(m: Marks, f: Factor, name: string, assetClass: string, amount: real, m': Marks)
    requires Names(f, name, assetClass, "GENERIC", "ATM") && HasSurface(m.volSurfaces, name, assetClass)
    requires ApplyOne(m, Snapshots.Shock(f, amount)) == Ok(m') && OneAtm(m.volSurfaces[name].grid)
    ensures name in m'.volSurfaces && Becomes(m.volSurfaces[name], m'.volSurfaces[name], GrowAll(amount))
    ensures name in VolsOf(m', assetClass)
    ensures VolsOf(m', assetClass)[name] == V.Floor(V.Floor(m.volSurfaces[name].grid[("1Y", 1.0)]) * (1.0 + amount))
  {
    GenericBucket();
    hide ApplyOne;
    VolShockByBucket(m, f, name, assetClass, "GENERIC", "ATM", amount, m');
    ScalarFollows(m, f, name, assetClass, "GENERIC", "ATM", amount, m');
    NodeBecomes(m.volSurfaces[name], m'.volSurfaces[name], GrowAll(amount), ("1Y", 1.0));
  }

  lemma GenericBucket()
    ensures !SkewBucket("ATM") && !TermBucket("GENERIC") && !LabelBucket("GENERIC", "ATM")
  {
    assert Upper("GENERIC") == "GENERIC" && Upper("ATM") == "ATM";
    assert |"GENERIC"| != |"1M"| && |"GENERIC"| != |"TERM"| && |"GENERIC"| != |"TERM_STRUCTURE"|;
    assert |"ATM"| != |"SKEW"| && |"ATM"| != |"SMILE_SKEW"|;
  }

  lemma NodeBecomes(before: V.Payload, after: V.Payload, move: NodeMove, k: V.GridKey)
    requires Becomes(before, after, move) && k in before.grid
    ensures k in after.grid && after.grid[k] == V.Floor(move(k, V.Floor(before.grid[k])))
  {
  }

  /** A skew leaves the money alone, and the scalar with it. */
  lemma SkewKeepsTheMoney(m: Marks, f: Factor, name: string, assetClass: string, expiry: string, amount: real, m': Marks)
    requires Names(f, name, assetClass, expiry, "SKEW") && HasSurface(m.volSurfaces, name, assetClass)
    requires ApplyOne(m, Snapshots.Shock(f, amount)) == Ok(m') && OneAtm(m.volSurfaces[name].grid)
    ensures name in m'.volSurfaces && name in VolsOf(m', assetClass)
    ensures forall k :: k in m.volSurfaces[name].grid && k.1 == 1.0 ==>
      k in m'.volSurfaces[name].grid && m'.volSurfaces[name].grid[k] == V.Floor(m.volSurfaces[name].grid[k])
    ensures VolsOf(m', assetClass)[name] == V.Floor(m.volSurfaces[name].grid[("1Y", 1.0)])
  {
    SkewIsSkew();
    hide ApplyOne, SkewBucket;
    VolShockByBucket(m, f, name, assetClass, expiry, "SKEW", amount, m');
    ScalarFollows(m, f, name, assetClass, expiry, "SKEW", amount, m');
    MoneyKept(m.volSurfaces[name], m'.volSurfaces[name], amount);
  }

  lemma SkewIsSkew()
    ensures SkewBucket("SKEW")
  {
    assert Upper("SKEW") == "SKEW";
  }

  lemma MoneyKept(before: V.Payload, after: V.Payload, amount: real)
    requires Becomes(before, after, Tilt(amount))
    ensures forall k :: k in before.grid && k.1 == 1.0 ==> k in after.grid && after.grid[k] == V.Floor(before.grid[k])
  {
    forall k | k in before.grid && k.1 == 1.0
      ensures k in after.grid && after.grid[k] == V.Floor(before.grid[k])
    {
      NodeBecomes(before, after, Tilt(amount), k);
      MulZero(amount, k.1 - 1.0);
    }
  }

  lemma MonthsParse(expiry: string, months: nat)
    requires (expiry == "1M" && months == 1) || (expiry == "3M" && months == 3) || (expiry == "6M" && months == 6)
    ensures TenorToYears(expiry) == Some(months as real / 12.0)
  {
    assert Strings.Strip(expiry) == expiry && Upper(expiry) == expiry;
    var number := expiry[..1];
    assert number[..0] == "" && |number| == 1 && IsDigit(number[0]);
    assert number[1..] == "";
    assert Digits("") == 0 && Digits(number) == months;
    assert IndexOf(number, '.') == None;
    assert ParseDecimal(number) == Some(months as real);
    assert expiry !in TENOR_YEARS;
  }

  lemma YearsParse(expiry: string)
    requires expiry == "1Y" || expiry == "2Y"
    ensures TenorToYears(expiry) == Some(V.SortYears(expiry))
  {
    assert Strings.Strip(expiry) == expiry && Upper(expiry) == expiry;
  }

  lemma MonthLabels(expiry: string) returns (months: nat)
    requires expiry in V.EXPIRY_YEARS && expiry != "1Y" && expiry != "2Y"
    ensures (expiry == "1M" && months == 1) || (expiry == "3M" && months == 3) || (expiry == "6M" && months == 6)
    ensures V.SortYears(expiry) == months as real / 12.0
  {
    assert expiry in ["1M", "3M", "6M"];
    months := if expiry == "1M" then 1 else if expiry == "3M" then 3 else 6;
  }

  /** The years of an expiry label are those the label has as a tenor. */
  lemma LabelsAreTenors(expiry: string)
    requires expiry in V.EXPIRY_YEARS
    ensures TenorToYears(expiry) == Some(V.SortYears(expiry))
  {
    hide *;
    if expiry == "1Y" || expiry == "2Y" {
      YearsParse(expiry);
    } else {
      var months := MonthLabels(expiry);
      MonthsParse(expiry, months);
    }
  }
}
