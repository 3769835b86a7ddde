/**
 * Which shocks of a batch may trade places: all of them, but for vol shocks of one name and class, which keep their order
 * (domain/models.py, _stage_shock).
 */
module BatchOrder {
  import opened Wrappers
  import opened Strings
  import opened RealMath
  import opened Vectors
  import opened Factors
  import opened Snapshots
  import opened ShockAlgebra
  import opened VolOrder
  import V = VolSurfaces

  /** What a vol shock is aimed at; spot and rate shocks have no target. */
  datatype Target = Target(volClass: VolClass, name: string)

  function TargetOf(f: Factor): Option<Target> {
    match f
    case EquityVol(name, _, _) => Some(Target(OfEquity, name))
    case FXVol(name, _, _) => Some(Target(OfFx, name))
    case _ => None
  }

  predicate Independent(x: Shock, y: Shock) {
    TargetOf(x.factor) == None || TargetOf(x.factor) != TargetOf(y.factor)
  }

  // ----- a vol shock, as what it writes -----

  /** The new scalar vol, and the new payload where there is a surface of the class. */
  datatype Written = Written(vol: real, payload: Option<V.Payload>)

  ghost function Effect(m: Marks, t: Target, shape: V.Shape, x: real): Result<Written, string> {
    if t.name !in VolsOf(m, t.volClass) then Err("vol not in snapshot")
    else if HasSurface(m.volSurfaces, t.name, ClassName(t.volClass)) then
      var p :- ShockSurface(m.volSurfaces[t.name], t.name, shape, x);
      Ok(Written(p.atmVol, Some(p)))
    else Ok(Written(V.Floor(Grow(VolsOf(m, t.volClass)[t.name], x)), None))
  }

  function Put(m: Marks, t: Target, w: Written): Marks {
    WithVols(m, t.volClass, VolsOf(m, t.volClass)[t.name := w.vol],
             if w.payload.Some? then m.volSurfaces[t.name := w.payload.value] else m.volSurfaces)
  }

  function PutResult(m: Marks, t: Target, r: Result<Written, string>): Result<Marks, string> {
    var w :- r;
    Ok(Put(m, t, w))
  }

  function ShapeOfVol(f: Factor): V.Shape
    requires !IsLinear(f)
  {
    ShapeOf(f.expiry, f.moneyness)
  }

  lemma VolShockIs(m: Marks, y: Shock)
    requires !IsLinear(y.factor)
    ensures TargetOf(y.factor).Some?
    ensures ApplyOne(m, y) == PutResult(m, TargetOf(y.factor).value, Effect(m, TargetOf(y.factor).value, ShapeOfVol(y.factor), y.amount))
  {
  }

  // ----- vol shocks of different targets -----

  /** What a shock writes keeps the class of the surface, and touches none where there is none. */
  ghost predicate Fits(m: Marks, t: Target, w: Written) {
    FitsIn(m.volSurfaces, t, w)
  }

  lemma EffectFits(m: Marks, t: Target, shape: V.Shape, x: real)
    requires Effect(m, t, shape, x).Ok?
    ensures t.name in VolsOf(m, t.volClass) && Fits(m, t, Effect(m, t, shape, x).value)
  {
  }

  lemma OneClass(surfaces: map<string, V.Payload>, name: string)
    ensures !(HasSurface(surfaces, name, ClassName(OfEquity)) && HasSurface(surfaces, name, ClassName(OfFx)))
  {
    assert |"equity"| == 6 && |"fx"| == 2;
  }

  // ----- the three maps a vol shock may write -----

  datatype VolParts = VolParts(equityVols: map<string, real>, fxVols: map<string, real>, surfaces: map<string, V.Payload>)

  function PartsOf(m: Marks): VolParts {
    VolParts(m.equityVols, m.fxVols, m.volSurfaces)
  }

  function WithParts(m: Marks, p: VolParts): Marks {
    m.(equityVols := p.equityVols, fxVols := p.fxVols, volSurfaces := p.surfaces)
  }

  function VolsIn(p: VolParts, c: VolClass): map<string, real> {
    if c == OfEquity then p.equityVols else p.fxVols
  }

  function SurfacesAfter(surfaces: map<string, V.Payload>, name: string, w: Written): map<string, V.Payload> {
    if w.payload.Some? then surfaces[name := w.payload.value] else surfaces
  }

  function PutIn(p: VolParts, t: Target, w: Written): VolParts {
    var surfaces := SurfacesAfter(p.surfaces, t.name, w);
    if t.volClass == OfEquity then VolParts(p.equityVols[t.name := w.vol], p.fxVols, surfaces)
    else VolParts(p.equityVols, p.fxVols[t.name := w.vol], surfaces)
  }

  lemma PutIs(m: Marks, t: Target, w: Written)
    ensures Put(m, t, w) == WithParts(m, PutIn(PartsOf(m), t, w))
  {
  }

  lemma PutTwice(m: Marks, t: Target, w: Written, u: Target, v: Written)
    ensures Put(Put(m, t, w), u, v) == WithParts(m, PutIn(PutIn(PartsOf(m), t, w), u, v))
  {
    PutIs(m, t, w);
    PutIs(Put(m, t, w), u, v);
  }

  ghost function EffectIn(p: VolParts, t: Target, shape: V.Shape, x: real): Result<Written, string> {
    if t.name !in VolsIn(p, t.volClass) then Err("vol not in snapshot")
    else if HasSurface(p.surfaces, t.name, ClassName(t.volClass)) then EffectOn(p.surfaces[t.name], t.name, shape, x)
    else Ok(Written(V.Floor(Grow(VolsIn(p, t.volClass)[t.name], x)), None))
  }

  ghost function EffectOn(q: V.Payload, name: string, shape: V.Shape, x: real): Result<Written, string> {
    var p :- ShockSurface(q, name, shape, x);
    Ok(Written(p.atmVol, Some(p)))
  }

  lemma EffectIs(m: Marks, t: Target, shape: V.Shape, x: real)
    ensures Effect(m, t, shape, x) == EffectIn(PartsOf(m), t, shape, x)
  {
  }

  lemma SurfaceKept(surfaces: map<string, V.Payload>, t: Target, w: Written, u: Target)
    requires t != u && FitsIn(surfaces, t, w)
    ensures var after := SurfacesAfter(surfaces, t.name, w);
      && (HasSurface(after, u.name, ClassName(u.volClass)) <==> HasSurface(surfaces, u.name, ClassName(u.volClass)))
      && (HasSurface(surfaces, u.name, ClassName(u.volClass)) ==> after[u.name] == surfaces[u.name])
  {
    OneClass(surfaces, t.name);
  }

  ghost predicate FitsIn(surfaces: map<string, V.Payload>, t: Target, w: Written) {
    if HasSurface(surfaces, t.name, ClassName(t.volClass))
    then w.payload.Some? && w.payload.value.assetClass == surfaces[t.name].assetClass
    else w.payload.None?
  }

  lemma VolKept(p: VolParts, t: Target, w: Written, u: Target)
    requires t != u
    ensures var before, after := VolsIn(p, u.volClass), VolsIn(PutIn(p, t, w), u.volClass);
      && (u.name in after <==> u.name in before) && (u.name in before ==> after[u.name] == before[u.name])
  {
  }

  /** A shock reads nothing another target's shock wrote. */
  lemma EffectKept(m: Marks, t: Target, w: Written, u: Target, shape: V.Shape, x: real)
    requires t != u && Fits(m, t, w)
    ensures Effect(Put(m, t, w), u, shape, x) == Effect(m, u, shape, x)
  {
    PutIs(m, t, w);
    EffectIs(m, u, shape, x);
    EffectIs(Put(m, t, w), u, shape, x);
    EffectKeptIn(PartsOf(m), t, w, u, shape, x);
  }

  lemma EffectKeptIn(p: VolParts, t: Target, w: Written, u: Target, shape: V.Shape, x: real)
    requires t != u && FitsIn(p.surfaces, t, w)
    ensures EffectIn(PutIn(p, t, w), u, shape, x) == EffectIn(p, u, shape, x)
  {
    VolKept(p, t, w, u);
    SurfaceKept(p.surfaces, t, w, u);
    assert PutIn(p, t, w).surfaces == SurfacesAfter(p.surfaces, t.name, w);
  }

  lemma SurfacesCommute(surfaces: map<string, V.Payload>, t: Target, w: Written, u: Target, v: Written)
    requires t != u && FitsIn(surfaces, t, w) && FitsIn(surfaces, u, v)
    ensures SurfacesAfter(SurfacesAfter(surfaces, t.name, w), u.name, v) == SurfacesAfter(SurfacesAfter(surfaces, u.name, v), t.name, w)
  {
    OneClass(surfaces, t.name);
    if t.name != u.name && w.payload.Some? && v.payload.Some? {
      MapsCommute(surfaces, t.name, w.payload.value, u.name, v.payload.value);
    }
  }

  lemma PutsInCommute(p: VolParts, t: Target, w: Written, u: Target, v: Written)
    requires t != u && FitsIn(p.surfaces, t, w) && FitsIn(p.surfaces, u, v)
    ensures PutIn(PutIn(p, t, w), u, v) == PutIn(PutIn(p, u, v), t, w)
  {
    SurfacesCommute(p.surfaces, t, w, u, v);
    if t.name != u.name {
      MapsCommute(p.equityVols, t.name, w.vol, u.name, v.vol);
      MapsCommute(p.fxVols, t.name, w.vol, u.name, v.vol);
    }
  }

  lemma PutsCommute(m: Marks, t: Target, w: Written, u: Target, v: Written)
    requires t != u && Fits(m, t, w) && Fits(m, u, v)
    ensures Put(Put(m, t, w), u, v) == Put(Put(m, u, v), t, w)
  {
    PutTwice(m, t, w, u, v);
    PutTwice(m, u, v, t, w);
    PutsInCommute(PartsOf(m), t, w, u, v);
  }

  lemma MapsCommute<T>(m: map<string, T>, a: string, x: T, b: string, y: T)
    requires a != b
    ensures m[a := x][b := y] == m[b := y][a := x]
  {
  }

  lemma VolsCommute(m: Marks, t: Target, a: V.Shape, x: real, u: Target, b: V.Shape, y: real)
    requires t != u
    ensures Same(VolTwice(m, t, a, x, u, b, y), VolTwice(m, u, b, y, t, a, x))
  {
    var w, v := Effect(m, t, a, x), Effect(m, u, b, y);
    if w.Ok? {
      EffectFits(m, t, a, x);
      EffectKept(m, t, w.value, u, b, y);
    }
    if v.Ok? {
      EffectFits(m, u, b, y);
      EffectKept(m, u, v.value, t, a, x);
    }
    if w.Ok? && v.Ok? {
      PutsCommute(m, t, w.value, u, v.value);
    }
  }

  ghost function VolTwice(m: Marks, t: Target, a: V.Shape, x: real, u: Target, b: V.Shape, y: real): Result<Marks, string> {
    var n :- PutResult(m, t, Effect(m, t, a, x));
    PutResult(n, u, Effect(n, u, b, y))
  }

  // ----- a vol shock and a spot or rate shock -----

  lemma MovedWithParts(m: Marks, v: Move, a: real, p: VolParts)
    ensures CanMove(WithParts(m, p), v) <==> CanMove(m, v)
    ensures CanMove(m, v) ==> Moved(WithParts(m, p), v, a) == WithParts(Moved(m, v, a), p)
  {
    if v.OnRate? {
      UnrelatedKeepsCan(m, WithParts(m, p), v.currency, v.tenor);
    }
  }

  lemma MovePuts(m: Marks, v: Move, a: real, t: Target, w: Written)
    ensures CanMove(Put(m, t, w), v) <==> CanMove(m, v)
    ensures CanMove(m, v) ==> Moved(Put(m, t, w), v, a) == Put(Moved(m, v, a), t, w)
  {
    PutIs(m, t, w);
    MovedWithParts(m, v, a, PutIn(PartsOf(m), t, w));
    if CanMove(m, v) {
      MoveKeepsVols(m, v, a);
      PutIs(Moved(m, v, a), t, w);
    }
  }

  lemma MoveKeepsEffect(m: Marks, v: Move, a: real, t: Target, shape: V.Shape, x: real)
    requires CanMove(m, v)
    ensures Effect(Moved(m, v, a), t, shape, x) == Effect(m, t, shape, x)
  {
    MoveKeepsVols(m, v, a);
  }

  lemma LinearAndVol(m: Marks, x: Shock, y: Shock)
    requires IsLinear(x.factor) && !IsLinear(y.factor)
    ensures Same(AfterOne(ApplyOne(m, x), y), AfterOne(ApplyOne(m, y), x))
  {
    var v := MoveOf(x.factor);
    VolShockIs(m, y);
    var t := TargetOf(y.factor).value;
    var w := Effect(m, t, ShapeOfVol(y.factor), y.amount);
    LinearIsMove(m, x);
    if w.Ok? {
      LinearIsMove(Put(m, t, w.value), x);
      MovePuts(m, v, x.amount, t, w.value);
    }
    if CanMove(m, v) {
      VolShockIs(Moved(m, v, x.amount), y);
      MoveKeepsEffect(m, v, x.amount, t, ShapeOfVol(y.factor), y.amount);
    }
  }

  lemma VolAndVol(m: Marks, x: Shock, y: Shock)
    requires !IsLinear(x.factor) && !IsLinear(y.factor) && Independent(x, y)
    ensures Same(AfterOne(ApplyOne(m, x), y), AfterOne(ApplyOne(m, y), x))
  {
    VolShockIs(m, x);
    VolShockIs(m, y);
    var t, u := TargetOf(x.factor).value, TargetOf(y.factor).value;
    if ApplyOne(m, x).Ok? {
      VolShockIs(ApplyOne(m, x).value, y);
    }
    if ApplyOne(m, y).Ok? {
      VolShockIs(ApplyOne(m, y).value, x);
    }
    VolsCommute(m, t, ShapeOfVol(x.factor), x.amount, u, ShapeOfVol(y.factor), y.amount);
  }

  /** Independent neighbours may be swapped. */
  lemma NeighboursCommute(m: Marks, x: Shock, y: Shock)
    requires Independent(x, y)
    ensures Same(AfterOne(ApplyOne(m, x), y), AfterOne(ApplyOne(m, y), x))
  {
    if IsLinear(x.factor) && IsLinear(y.factor) {
      PairCommutes(m, x, y);
    } else if IsLinear(x.factor) {
      LinearAndVol(m, x, y);
    } else if IsLinear(y.factor) {
      LinearAndVol(m, y, x);
    } else {
      VolAndVol(m, x, y);
    }
  }

  lemma SwapIndependent(m: Marks, x: Shock, y: Shock, rest: seq<Shock>)
    requires Independent(x, y)
    ensures Same(ApplyMarks(m, [x, y] + rest), ApplyMarks(m, [y, x] + rest))
  {
    TwoShocks(m, x, y, rest);
    TwoShocks(m, y, x, rest);
    NeighboursCommute(m, x, y);
  }

  // ----- a whole batch -----

  /** The shocks of a batch aimed at one target, in their order. */
  function Aimed(s: seq<Shock>, t: Target): seq<Shock> {
    if s == [] then [] else (if TargetOf(s[0].factor) == Some(t) then [s[0]] else []) + Aimed(s[1..], t)
  }

  /** Nothing before place k stands in the way of the shock there. */
  predicate ClearTo(s: seq<Shock>, k: nat)
    requires k < |s|
  {
    forall i :: 0 <= i < k ==> Independent(s[i], s[k])
  }

  lemma ClearBehind(s: seq<Shock>, k: nat)
    requires 0 < k < |s| && ClearTo(s, k)
    ensures Independent(s[0], s[k]) && ClearTo(s[1..], k - 1)
  {
    forall i | 0 <= i < k - 1
      ensures Independent(s[1..][i], s[1..][k - 1])
    {
      assert s[1..][i] == s[i + 1];
    }
  }

  lemma CutAt(s: seq<Shock>, k: nat)
    requires 0 < k < |s|
    ensures var head, x, tail, rest := s[0], s[k], s[1..k] + s[k + 1..], s[1..];
      && rest[k - 1] == x && [x] + (rest[..k - 1] + rest[k..]) == [x] + tail
      && [x] + (s[..k] + s[k + 1..]) == [x, head] + tail
      && ([head, x] + tail)[0] == head && ([head, x] + tail)[1..] == [x] + tail
  {
  }

  lemma {:induction false} BringForward(m: Marks, s: seq<Shock>, k: nat)
    requires k < |s| && ClearTo(s, k)
    ensures Same(ApplyMarks(m, s), ApplyMarks(m, [s[k]] + (s[..k] + s[k + 1..])))
    decreases k
  {
    if k == 0 {
      assert [s[0]] + (s[..0] + s[1..]) == s;
    } else {
      ClearBehind(s, k);
      CutAt(s, k);
      if ApplyOne(m, s[0]).Ok? {
        BringForward(ApplyOne(m, s[0]).value, s[1..], k - 1);
      }
      SwapIndependent(m, s[0], s[k], s[1..k] + s[k + 1..]);
    }
  }

  lemma {:induction false} AimedJoin(a: seq<Shock>, b: seq<Shock>, t: Target)
    ensures Aimed(a + b, t) == Aimed(a, t) + Aimed(b, t)
  {
    if a == [] {
      assert a + b == b;
    } else {
      assert (a + b)[1..] == a[1..] + b;
      AimedJoin(a[1..], b, t);
    }
  }

  /** The first shock aimed at a target, with none before it. */
  lemma {:induction false} FirstAimed(s: seq<Shock>, t: Target) returns (k: nat)
    requires Aimed(s, t) != []
    ensures k < |s| && s[k] == Aimed(s, t)[0] && forall i :: 0 <= i < k ==> TargetOf(s[i].factor) != Some(t)
    ensures TargetOf(s[k].factor) == Some(t)
  {
    if TargetOf(s[0].factor) == Some(t) {
      k := 0;
    } else {
      k := FirstAimed(s[1..], t);
      k := k + 1;
    }
  }

  lemma {:induction false} NoneAimed(s: seq<Shock>, t: Target)
    requires forall i :: 0 <= i < |s| ==> TargetOf(s[i].factor) != Some(t)
    ensures Aimed(s, t) == []
  {
    if s != [] {
      NoneAimed(s[1..], t);
    }
  }

  /** Where the first shock of a batch can be found in a rearrangement that keeps every target's order, with nothing in its way. */
  lemma FoundClear(s: seq<Shock>, t: seq<Shock>) returns (k: nat)
    requires s != [] && multiset(s) == multiset(t) && forall u :: Aimed(s, u) == Aimed(t, u)
    ensures k < |t| && t[k] == s[0] && ClearTo(t, k)
    ensures multiset(s[1..]) == multiset(t[..k] + t[k + 1..])
  {
    if TargetOf(s[0].factor).Some? {
      var u := TargetOf(s[0].factor).value;
      assert Aimed(s, u) != [] && Aimed(t, u) == Aimed(s, u);
      k := FirstAimed(t, u);
    } else {
      assert s[0] in multiset(t);
      k :| k < |t| && t[k] == s[0];
    }
    MultisetRemove(t, k);
    assert s == [s[0]] + s[1..];
  }

  lemma AimedCons(x: Shock, rest: seq<Shock>, u: Target)
    ensures Aimed([x] + rest, u) == (if TargetOf(x.factor) == Some(u) then [x] else []) + Aimed(rest, u)
  {
    assert ([x] + rest)[1..] == rest;
  }

  /** A batch from which one shock is taken out, as one target sees it. */
  lemma AimedSplit(t: seq<Shock>, k: nat, u: Target)
    requires k < |t|
    ensures Aimed(t[..k] + t[k + 1..], u) == Aimed(t[..k], u) + Aimed(t[k + 1..], u)
    ensures Aimed(t, u) == Aimed(t[..k], u) + ((if TargetOf(t[k].factor) == Some(u) then [t[k]] else []) + Aimed(t[k + 1..], u))
  {
    assert t == t[..k] + ([t[k]] + t[k + 1..]);
    AimedJoin(t[..k], [t[k]] + t[k + 1..], u);
    AimedCons(t[k], t[k + 1..], u);
    AimedJoin(t[..k], t[k + 1..], u);
  }

  lemma TailsAgree(x: Shock, a: seq<Shock>, b: seq<Shock>)
    requires [x] + a == [] + ([x] + b)
    ensures a == [] + b
  {
    assert a == ([x] + a)[1..];
    assert b == ([] + ([x] + b))[1..];
  }

  lemma AimedAfter(s: seq<Shock>, t: seq<Shock>, k: nat, u: Target)
    requires s != [] && k < |t| && t[k] == s[0] && Aimed(s, u) == Aimed(t, u) && ClearTo(t, k)
    ensures Aimed(s[1..], u) == Aimed(t[..k] + t[k + 1..], u)
  {
    AimedSplit(t, k, u);
    if TargetOf(s[0].factor) == Some(u) {
      NoneAimed(t[..k], u);
      TailsAgree(s[0], Aimed(s[1..], u), Aimed(t[k + 1..], u));
    } else {
      assert Aimed(s, u) == [] + Aimed(s[1..], u);
      assert [] + Aimed(t[k + 1..], u) == Aimed(t[k + 1..], u);
    }
  }

  /**
   * Any rearrangement of a batch that keeps the order of the vol shocks of each name and class gives the same marks, or fails
   * as the batch does.
   */
  lemma {:induction false} OrderOfTargetsDecides(m: Marks, s: seq<Shock>, t: seq<Shock>)
    requires multiset(s) == multiset(t) && forall u :: Aimed(s, u) == Aimed(t, u)
    ensures Same(ApplyMarks(m, s), ApplyMarks(m, t))
    decreases |s|
  {
    if s == [] {
      assert |multiset(t)| == 0;
      assert t == [];
    } else {
      var k := FoundClear(s, t);
      var rest := t[..k] + t[k + 1..];
      BringForward(m, t, k);
      ConsMarks(m, s[0], rest);
      forall u
        ensures Aimed(s[1..], u) == Aimed(rest, u)
      {
        AimedAfter(s, t, k, u);
      }
      if ApplyOne(m, s[0]).Ok? {
        OrderOfTargetsDecides(ApplyOne(m, s[0]).value, s[1..], rest);
      }
    }
  }
}
