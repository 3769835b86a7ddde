/**
 * What a lookup on a vol surface returns: the bilinear function through the nodes around it, flat outside the grid
 * (market/vol_surfaces.py: VolSurface.vol; pricing/surface_vol.py).
 */
module VolLookup {
  import opened Wrappers
  import opened RealMath
  import opened Vectors
  import opened SortedSets
  import opened Curves
  import opened VolSurfaces
  import B = Builtin

  ghost predicate HasNode(points: seq<VolPoint>, t: real, m: real, v: real) {
    exists i :: 0 <= i < |points| && points[i].expiryYears == t && points[i].moneyness == m && points[i].vol == v
  }

  ghost predicate UniqueNodes(points: seq<VolPoint>) {
    forall i, j :: 0 <= i < j < |points| ==> points[i].expiryYears != points[j].expiryYears || points[i].moneyness != points[j].moneyness
  }

  /** Every expiry has a node at every moneyness. */
  ghost predicate Rectangular(points: seq<VolPoint>) {
    && points != [] && UniqueNodes(points)
    && forall t, m :: t in ExpiryAxis(points) && m in MoneynessAxis(points) ==> exists v :: HasNode(points, t, m, v)
  }

  lemma {:induction false} ExactNode(points: seq<VolPoint>, t: real, m: real, v: real)
    requires HasNode(points, t, m, v) && UniqueNodes(points)
    ensures FindExact(points, t, m) == Some(v)
  {
    var i :| 0 <= i < |points| && points[i].expiryYears == t && points[i].moneyness == m && points[i].vol == v;
    if i > 0 {
      assert points[0].expiryYears != t || points[0].moneyness != m;
      assert points[1..][i - 1] == points[i];
      ExactNode(points[1..], t, m, v);
    }
  }

  lemma NodeIs(points: seq<VolPoint>, t: real, m: real, v: real)
    requires HasNode(points, t, m, v) && UniqueNodes(points)
    ensures Node(points, t, m) == Some(v)
  {
    ExactNode(points, t, m, v);
  }

  lemma NodeThere(points: seq<VolPoint>, t: real, m: real)
    requires Rectangular(points) && t in ExpiryAxis(points) && m in MoneynessAxis(points)
    ensures Node(points, t, m).Some?
  {
    var v :| HasNode(points, t, m, v);
    NodeIs(points, t, m, v);
  }

  // ----- one axis -----

  /** x is between a and b, and nothing on the axis is between them. */
  ghost predicate Cell(axis: set<real>, a: real, b: real, x: real) {
    a in axis && b in axis && a <= x <= b && forall y :: y in axis ==> y <= a || b <= y
  }

  /** How the bracket of x can lie about a cell: on it, or ending at x when x is one of its ends. */
  predicate About(r: (real, real), a: real, b: real, x: real) {
    || (r == (a, b) && a < b)
    || (x == a && r.1 == a && r.0 <= a)
    || (x == b && r.1 == b && r.0 <= b && (r.0 == b || a == b))
  }

  lemma BracketAbout(values: Vec, axis: set<real>, a: real, b: real, x: real)
    requires values != [] && Increasing(values) && (forall y :: y in values <==> y in axis) && Cell(axis, a, b, x)
    ensures About(Bracket(values, x), a, b, x)
  {
    var last := |values| - 1;
    var i :| 0 <= i < |values| && values[i] == a;
    var j :| 0 <= j < |values| && values[j] == b;
    assert values[0] in axis && values[last] in axis;
    if values[0] < x < values[last] {
      var k := Segment(values, 0, x);
      assert values[k] in axis && values[k + 1] in axis;
      if a < x < b {
        assert values[k] == a && values[k + 1] == b;
      } else if x == a {
        assert values[k + 1] == a;
      } else {
        assert values[k + 1] == b;
        assert values[k] <= a;
        assert a <= values[k];
      }
    }
  }

  lemma InRange(values: Vec, axis: set<real>, a: real, b: real, x: real)
    requires values != [] && Increasing(values) && (forall y :: y in values <==> y in axis) && Cell(axis, a, b, x)
    ensures Clamp(x, values) == x
  {
    var i :| 0 <= i < |values| && values[i] == a;
    var j :| 0 <= j < |values| && values[j] == b;
  }

  /** Between two points of a line, interpolation stays on the line. */
  lemma OnLine(g0: real, g1: real, a: real, b: real, x: real)
    requires a < b
    ensures Lerp(g0 + g1 * a, g0 + g1 * b, Weight(a, b, x)) == g0 + g1 * x
  {
    var w := Weight(a, b, x);
    Quotient(x - a, b - a);
    assert g0 + g1 * b - (g0 + g1 * a) == g1 * (b - a);
    assert w * (g1 * (b - a)) == g1 * (w * (b - a));
  }

  /** What is interpolated over a bracket of x is the line through the values at the ends of its cell. */
  lemma LineOver(r: (real, real), a: real, b: real, x: real, f0: real, f1: real, g0: real, g1: real)
    requires About(r, a, b, x) && r.0 <= r.1
    requires (r.0 == a ==> f0 == g0 + g1 * a) && (r.0 == b ==> f0 == g0 + g1 * b)
    requires (r.1 == a ==> f1 == g0 + g1 * a) && (r.1 == b ==> f1 == g0 + g1 * b)
    ensures Lerp(f0, f1, Share(r.0, r.1, x)) == g0 + g1 * x
  {
    if r.0 == r.1 {
      assert Share(r.0, r.1, x) == 0.0;
    } else if r == (a, b) {
      OnLine(g0, g1, a, b, x);
    } else {
      QuotientIs(x - r.0, r.1 - r.0, 1.0);
    }
  }

  // ----- the surface -----

  /** A surface that is linear in years, in moneyness, and in their product. */
  function Poly(c0: real, c1: real, c2: real, c3: real, t: real, m: real): real {
    c0 + c1 * t + (c2 + c3 * t) * m
  }

  lemma PolyInYears(c0: real, c1: real, c2: real, c3: real, t: real, m: real)
    ensures Poly(c0, c1, c2, c3, t, m) == c0 + c2 * m + (c1 + c3 * m) * t
  {
    assert (c2 + c3 * t) * m == c2 * m + c3 * m * t;
    assert (c1 + c3 * m) * t == c1 * t + c3 * m * t;
  }

  lemma PolyInMoneyness(c0: real, c1: real, c2: real, c3: real, t: real, m: real)
    ensures Poly(c0, c1, c2, c3, t, m) == c0 + c1 * t + (c2 + c3 * t) * m
  {
  }

  lemma VolIs(points: seq<VolPoint>, x: real, y: real, r: (real, real), s: (real, real))
    requires Rectangular(points)
    requires var ts, ms := Axis(ExpiryAxis(points)), Axis(MoneynessAxis(points));
      ts != [] && ms != [] && Clamp(x, ts) == x && Clamp(y, ms) == y && r == Bracket(ts, x) && s == Bracket(ms, y)
    ensures r.0 <= r.1 && s.0 <= s.1 && r.0 in ExpiryAxis(points) && r.1 in ExpiryAxis(points) && s.0 in MoneynessAxis(points) && s.1 in MoneynessAxis(points)
    ensures Node(points, r.0, s.0).Some? && Node(points, r.0, s.1).Some? && Node(points, r.1, s.0).Some? && Node(points, r.1, s.1).Some?
    ensures VolAt(points, x, y) == Ok(Lerp(
      Lerp(Node(points, r.0, s.0).value, Node(points, r.0, s.1).value, Share(s.0, s.1, y)),
      Lerp(Node(points, r.1, s.0).value, Node(points, r.1, s.1).value, Share(s.0, s.1, y)), Share(r.0, r.1, x)))
  {
    hide Node, Rectangular, Lerp, Share, Weight, Bracket, Clamp, UniqueNodes;
    RectangularParts(points);
    NodeThere(points, r.0, s.0);
    NodeThere(points, r.0, s.1);
    NodeThere(points, r.1, s.0);
    NodeThere(points, r.1, s.1);
  }

  lemma RectangularParts(points: seq<VolPoint>)
    requires Rectangular(points)
    ensures points != [] && UniqueNodes(points)
  {
  }

  lemma AxesNotEmpty(points: seq<VolPoint>)
    requires points != []
    ensures Axis(ExpiryAxis(points)) != [] && Axis(MoneynessAxis(points)) != []
  {
    assert points[0] in points && points[0].expiryYears in ExpiryAxis(points) && points[0].moneyness in MoneynessAxis(points);
  }

  /** Values v0, v1 at the moneynesses bracketing y, for an expiry t whose nodes lie on the surface. */
  lemma AlongExpiry(points: seq<VolPoint>, s: (real, real), p: real, q: real, y: real, t: real, c0: real, c1: real, c2: real, c3: real)
    requires UniqueNodes(points) && About(s, p, q, y) && s.0 <= s.1
    requires HasNode(points, t, p, Poly(c0, c1, c2, c3, t, p)) && HasNode(points, t, q, Poly(c0, c1, c2, c3, t, q))
    requires Node(points, t, s.0).Some? && Node(points, t, s.1).Some?
    ensures Lerp(Node(points, t, s.0).value, Node(points, t, s.1).value, Share(s.0, s.1, y)) == Poly(c0, c1, c2, c3, t, y)
  {
    NodeIs(points, t, p, Poly(c0, c1, c2, c3, t, p));
    NodeIs(points, t, q, Poly(c0, c1, c2, c3, t, q));
    PolyInMoneyness(c0, c1, c2, c3, t, p);
    PolyInMoneyness(c0, c1, c2, c3, t, q);
    PolyInMoneyness(c0, c1, c2, c3, t, y);
    hide *;
    LineOver(s, p, q, y, Node(points, t, s.0).value, Node(points, t, s.1).value, c0 + c1 * t, c2 + c3 * t);
  }

  /** The four nodes at the corners of a cell lie on the surface. */
  ghost predicate Corners(points: seq<VolPoint>, a: real, b: real, p: real, q: real, c0: real, c1: real, c2: real, c3: real) {
    && HasNode(points, a, p, Poly(c0, c1, c2, c3, a, p)) && HasNode(points, a, q, Poly(c0, c1, c2, c3, a, q))
    && HasNode(points, b, p, Poly(c0, c1, c2, c3, b, p)) && HasNode(points, b, q, Poly(c0, c1, c2, c3, b, q))
  }

  /** Inside a cell, and on its edges, the lookup is the surface through its four corners: no other node matters. */
  lemma VolIsBilinear(points: seq<VolPoint>, a: real, b: real, p: real, q: real, x: real, y: real, c0: real, c1: real, c2: real, c3: real)
    requires Rectangular(points) && Cell(ExpiryAxis(points), a, b, x) && Cell(MoneynessAxis(points), p, q, y)
    requires Corners(points, a, b, p, q, c0, c1, c2, c3)
    ensures VolAt(points, x, y) == Ok(Poly(c0, c1, c2, c3, x, y))
  {
    hide *;
    RectangularParts(points);
    AxesNotEmpty(points);
    var ts, ms := Axis(ExpiryAxis(points)), Axis(MoneynessAxis(points));
    InRange(ts, ExpiryAxis(points), a, b, x);
    InRange(ms, MoneynessAxis(points), p, q, y);
    BracketAbout(ts, ExpiryAxis(points), a, b, x);
    BracketAbout(ms, MoneynessAxis(points), p, q, y);
    var r, s := Bracket(ts, x), Bracket(ms, y);
    VolIs(points, x, y, r, s);
    CellValue(points, r, s, a, b, p, q, x, y, c0, c1, c2, c3);
  }

  lemma CellValue(points: seq<VolPoint>, r: (real, real), s: (real, real), a: real, b: real, p: real, q: real, x: real, y: real,
                  c0: real, c1: real, c2: real, c3: real)
    requires UniqueNodes(points) && About(r, a, b, x) && About(s, p, q, y) && r.0 <= r.1 && s.0 <= s.1 && Corners(points, a, b, p, q, c0, c1, c2, c3)
    requires Node(points, r.0, s.0).Some? && Node(points, r.0, s.1).Some? && Node(points, r.1, s.0).Some? && Node(points, r.1, s.1).Some?
    ensures Lerp(Lerp(Node(points, r.0, s.0).value, Node(points, r.0, s.1).value, Share(s.0, s.1, y)),
                 Lerp(Node(points, r.1, s.0).value, Node(points, r.1, s.1).value, Share(s.0, s.1, y)), Share(r.0, r.1, x))
         == Poly(c0, c1, c2, c3, x, y)
  {
    hide *;
    var f0 := Lerp(Node(points, r.0, s.0).value, Node(points, r.0, s.1).value, Share(s.0, s.1, y));
    var f1 := Lerp(Node(points, r.1, s.0).value, Node(points, r.1, s.1).value, Share(s.0, s.1, y));
    EndValue(points, r.0, s, a, b, p, q, y, c0, c1, c2, c3, f0);
    EndValue(points, r.1, s, a, b, p, q, y, c0, c1, c2, c3, f1);
    LineOver(r, a, b, x, f0, f1, c0 + c2 * y, c1 + c3 * y);
    PolyInYears(c0, c1, c2, c3, x, y);
  }

  lemma EndValue(points: seq<VolPoint>, t: real, s: (real, real), a: real, b: real, p: real, q: real, y: real,
                 c0: real, c1: real, c2: real, c3: real, f: real)
    requires UniqueNodes(points) && About(s, p, q, y) && s.0 <= s.1 && Corners(points, a, b, p, q, c0, c1, c2, c3)
    requires Node(points, t, s.0).Some? && Node(points, t, s.1).Some?
    requires f == Lerp(Node(points, t, s.0).value, Node(points, t, s.1).value, Share(s.0, s.1, y))
    ensures t == a ==> f == c0 + c2 * y + (c1 + c3 * y) * a
    ensures t == b ==> f == c0 + c2 * y + (c1 + c3 * y) * b
  {
    if t == a || t == b {
      AlongExpiry(points, s, p, q, y, t, c0, c1, c2, c3);
      PolyInYears(c0, c1, c2, c3, t, y);
    }
  }

  /** At a node the lookup is the vol of the node. */
  lemma VolAtNode(points: seq<VolPoint>, t: real, m: real, v: real)
    requires Rectangular(points) && HasNode(points, t, m, v)
    ensures VolAt(points, t, m) == Ok(v)
  {
    var i :| 0 <= i < |points| && points[i].expiryYears == t && points[i].moneyness == m && points[i].vol == v;
    assert points[i] in points && t in ExpiryAxis(points) && m in MoneynessAxis(points);
    assert Poly(v, 0.0, 0.0, 0.0, t, m) == v;
    VolIsBilinear(points, t, t, m, m, t, m, v, 0.0, 0.0, 0.0);
  }

  /** Beyond the last node of an axis, before the first, the lookup is the one at that node. */
  lemma VolFlatOutside(points: seq<VolPoint>, x: real, y: real, t: real, m: real)
    requires points != []
    ensures t in ExpiryAxis(points) && ((x <= t && forall u :: u in ExpiryAxis(points) ==> t <= u) || (x >= t && forall u :: u in ExpiryAxis(points) ==> u <= t))
      ==> VolAt(points, x, y) == VolAt(points, t, y)
    ensures m in MoneynessAxis(points)
        && ((y <= m && forall u :: u in MoneynessAxis(points) ==> m <= u) || (y >= m && forall u :: u in MoneynessAxis(points) ==> u <= m))
      ==> VolAt(points, x, y) == VolAt(points, x, m)
  {
    AxesNotEmpty(points);
    ClampEnd(Axis(ExpiryAxis(points)), ExpiryAxis(points), x, t);
    ClampEnd(Axis(MoneynessAxis(points)), MoneynessAxis(points), y, m);
  }

  lemma ClampEnd(values: Vec, axis: set<real>, x: real, end: real)
    requires values != [] && Increasing(values) && forall y :: y in values <==> y in axis
    ensures end in axis && ((x <= end && forall u :: u in axis ==> end <= u) || (x >= end && forall u :: u in axis ==> u <= end))
      ==> Clamp(x, values) == Clamp(end, values)
  {
    if end in axis {
      var i :| 0 <= i < |values| && values[i] == end;
      assert values[0] in axis && values[|values| - 1] in axis;
    }
  }

  // ----- grids -----

  /** Every label of the grid with every moneyness of the grid. */
  predicate FullGrid(grid: map<GridKey, real>) {
    grid != map[] && KnownGrid(grid) && forall k, l :: k in grid && l in grid ==> (k.0, l.1) in grid
  }

  lemma GridNode(grid: map<GridKey, real>, k: GridKey)
    requires KnownGrid(grid) && k in grid
    ensures HasNode(Points(grid), SortYears(k.0), k.1, Floor(grid[k]))
  {
    PointsList(grid);
    var i :| 0 <= i < |Points(grid)| && Points(grid)[i] == PointAt(k, grid[k]);
  }

  lemma GridNodesUnique(grid: map<GridKey, real>)
    requires KnownGrid(grid)
    ensures UniqueNodes(Points(grid))
  {
    var points := Points(grid);
    PointsList(grid);
    PointsDistinct(grid);
    forall i, j | 0 <= i < j < |points|
      ensures points[i].expiryYears != points[j].expiryYears || points[i].moneyness != points[j].moneyness
    {
      assert KeyOf(points[i]) in grid && KeyOf(points[j]) in grid && KeyOf(points[i]) != KeyOf(points[j]);
      if points[i].expiryYears == points[j].expiryYears {
        LabelOfYears(points[i].expiry, points[j].expiry);
      }
    }
  }

  lemma AxisKeys(grid: map<GridKey, real>, t: real, m: real) returns (k: GridKey, l: GridKey)
    requires KnownGrid(grid) && t in ExpiryAxis(Points(grid)) && m in MoneynessAxis(Points(grid))
    ensures k in grid && l in grid && SortYears(k.0) == t && l.1 == m
  {
    PointsList(grid);
    var e :| e in Points(grid) && e.expiryYears == t;
    var f :| f in Points(grid) && f.moneyness == m;
    k, l := KeyOf(e), KeyOf(f);
  }

  lemma FullIsRectangular(grid: map<GridKey, real>)
    requires FullGrid(grid)
    ensures Rectangular(Points(grid))
  {
    var points := Points(grid);
    GridNodesUnique(grid);
    var k :| k in grid;
    GridNode(grid, k);
    forall t, m | t in ExpiryAxis(points) && m in MoneynessAxis(points)
      ensures exists v :: HasNode(points, t, m, v)
    {
      var e, f := AxisKeys(grid, t, m);
      GridNode(grid, (e.0, f.1));
    }
  }

  /** On a full grid the lookup at the expiry of a label and a moneyness of the grid is its floored vol. */
  lemma VolAtGridNode(grid: map<GridKey, real>, k: GridKey)
    requires FullGrid(grid) && k in grid
    ensures VolAt(Points(grid), SortYears(k.0), k.1) == Ok(Floor(grid[k]))
  {
    FullIsRectangular(grid);
    GridNode(grid, k);
    VolAtNode(Points(grid), SortYears(k.0), k.1, Floor(grid[k]));
  }

  /** An option is read at its strike over the underlying: struck at a moneyness of the grid, for the years of a label, it gets that node. */
  lemma OptionVolAtNode(m: map<string, Payload>, scalars: map<string, real>, name: string, k: GridKey, underlying: real, strike: real)
    requires name in m && FullGrid(m[name].grid) && k in m[name].grid && underlying > 0.0 && strike == k.1 * underlying
    ensures B.OptionVol(m, scalars, name, SortYears(k.0), strike, underlying) == Ok(Floor(m[name].grid[k]))
  {
    QuotientIs(strike, underlying, k.1);
    VolAtGridNode(m[name].grid, k);
  }
}
