/**
 * Market snapshots and typed shocks (domain/models.py: MarketSnapshot.apply, bump, _stage_shock,
 * _stage_rate_zero, _bump_curve_zeros, _bump_vol_surface_payload).
 */
module Snapshots {
  import opened Wrappers
  import opened Strings
  import opened Factors
  import opened RealMath
  import opened Vectors
  import V = VolSurfaces

  /** A named entry of `curves`; the dictionary keeps insertion order. */
  datatype CurvePayload = CurvePayload(currency: string, curveType: string, name: string, zeros: map<string, real>)

  datatype NamedCurve = NamedCurve(key: string, payload: CurvePayload)

  datatype Marks = Marks(
    equitySpots: map<string, real>,
    equityVols: map<string, real>,
    fxSpots: map<string, real>,
    fxVols: map<string, real>,
    rates: map<string, real>,
    keyRates: map<string, map<string, real>>,
    dividendYields: map<string, real>,
    projectionRates: map<string, real>,
    rateSpreads: map<string, real>,
    irVols: map<string, real>,
    irFutureQuotes: map<string, real>,
    curves: seq<NamedCurve>,
    volSurfaces: map<string, V.Payload>)

  datatype AsOf = Calendar(day: int) | EngineLabel(text: string)

  datatype Snapshot = Snapshot(id: string, asOf: AsOf, marks: Marks)

  datatype Shock = Shock(factor: Factor, amount: real)

  const PARALLEL_TENORS := {"ALL", "PARALLEL"}
  const VOL_ATM_BUCKETS := {"ATM", "GENERIC", "ALL", "PARALLEL"}
  const VOL_SKEW_BUCKETS := {"SKEW", "SMILE_SKEW"}
  const VOL_TERM_BUCKETS := {"TERM", "TERM_STRUCTURE"}

  predicate DistinctCurves(curves: seq<NamedCurve>) {
    forall i, j :: 0 <= i < j < |curves| ==> curves[i].key != curves[j].key
  }

  // ----- what one shock does -----

  function ShiftAll(zeros: map<string, real>, amount: real): (r: map<string, real>)
    ensures r.Keys == zeros.Keys
  {
    map t | t in zeros :: zeros[t] + amount
  }

  function ShiftOne(zeros: map<string, real>, tenor: string, amount: real): (r: map<string, real>)
    ensures r.Keys == zeros.Keys
  {
    if tenor in zeros then zeros[tenor := zeros[tenor] + amount] else zeros
  }

  /** A parallel move when no tenor is given. */
  function BumpZeros(zeros: map<string, real>, tenor: Option<string>, amount: real): (r: map<string, real>)
    ensures r.Keys == zeros.Keys
  {
    match tenor
    case None => ShiftAll(zeros, amount)
    case Some(t) => ShiftOne(zeros, t, amount)
  }

  predicate MatchesCurrency(p: CurvePayload, currency: string) {
    Upper(p.currency) == Upper(currency)
  }

  function BumpCurve(c: NamedCurve, currency: string, tenor: Option<string>, amount: real): NamedCurve {
    if MatchesCurrency(c.payload, currency)
    then c.(payload := c.payload.(zeros := BumpZeros(c.payload.zeros, tenor, amount)))
    else c
  }

  function BumpCurves(curves: seq<NamedCurve>, currency: string, tenor: Option<string>, amount: real): (r: seq<NamedCurve>)
    ensures |r| == |curves|
  {
    seq(|curves|, i requires 0 <= i < |curves| => BumpCurve(curves[i], currency, tenor, amount))
  }

  function BumpKeyRates(keyRates: map<string, map<string, real>>, currency: string, tenor: Option<string>, amount: real): map<string, map<string, real>> {
    if currency in keyRates then keyRates[currency := BumpZeros(keyRates[currency], tenor, amount)] else keyRates
  }

  /** Does a shock of this tenor change the curve? */
  predicate Touches(c: NamedCurve, currency: string, tenor: Option<string>) {
    MatchesCurrency(c.payload, currency) && (tenor.None? || tenor.value in c.payload.zeros)
  }

  predicate HasTenor(m: Marks, currency: string, tenor: string) {
    || (currency in m.keyRates && tenor in m.keyRates[currency])
    || exists i :: 0 <= i < |m.curves| && Touches(m.curves[i], currency, Some(tenor))
  }

  /** No tenor stands for every one. */
  function TenorOf(tenor: string): Option<string> {
    if tenor in PARALLEL_TENORS then None else Some(tenor)
  }

  predicate CanShift(m: Marks, currency: string, tenor: Option<string>) {
    match tenor
    case None => currency in m.rates
    case Some(t) => HasTenor(m, currency, t)
  }

  function ShiftScalar(rates: map<string, real>, currency: string, tenor: Option<string>, amount: real): map<string, real> {
    if tenor.None? && currency in rates then rates[currency := rates[currency] + amount] else rates
  }

  /** A parallel shock moves the scalar rate, all key rates and all matching curves; a tenor shock one pillar of each. */
  function ShiftRates(m: Marks, currency: string, tenor: Option<string>, amount: real): Marks {
    m.(rates := ShiftScalar(m.rates, currency, tenor, amount),
       keyRates := BumpKeyRates(m.keyRates, currency, tenor, amount),
       curves := BumpCurves(m.curves, currency, tenor, amount))
  }

  function ShockRate(m: Marks, currency: string, tenor: Option<string>, amount: real): Result<Marks, string> {
    if CanShift(m, currency, tenor) then Ok(ShiftRates(m, currency, tenor, amount)) else Err("rate or tenor not in snapshot")
  }

  function ShapeOf(expiry: string, moneyness: string): V.Shape {
    if Upper(moneyness) in VOL_SKEW_BUCKETS then V.Skew
    else if Upper(expiry) in VOL_TERM_BUCKETS then V.Term
    else if Upper(expiry) in V.EXPIRY_YEARS && Upper(moneyness) in VOL_ATM_BUCKETS then V.ExpiryRelative(Upper(expiry))
    else V.Relative
  }

  /** The payload of the shocked surface, with its at-the-money vol. */
  ghost function ShockSurface(p: V.Payload, name: string, shape: V.Shape, amount: real): Result<V.Payload, string> {
    if !V.KnownGrid(p.grid) || p.grid == map[] then Err("bad surface")
    else
      var points := V.ShockPoints(V.Points(p.grid), shape, amount);
      Ok(V.Payload(if p.name == "" then name else p.name, p.assetClass, V.AtmVol(points, "1Y"), V.GridOf(points)))
  }

  predicate HasSurface(surfaces: map<string, V.Payload>, name: string, assetClass: string) {
    name in surfaces && Lower(surfaces[name].assetClass) == assetClass
  }

  /** The vols and surfaces after a vol shock on one name. */
  ghost function ShockVol(vols: map<string, real>, surfaces: map<string, V.Payload>, name: string, assetClass: string,
                          shape: V.Shape, amount: real): VolMarks {
    if name !in vols then Err("vol not in snapshot")
    else if HasSurface(surfaces, name, assetClass) then
      match ShockSurface(surfaces[name], name, shape, amount)
      case Err(e) => Err(e)
      case Ok(p) => Ok((vols[name := p.atmVol], surfaces[name := p]))
    else Ok((vols[name := V.Floor(Grow(vols[name], amount))], surfaces))
  }

  predicate IsLinear(f: Factor) {
    f.EquitySpot? || f.FXSpot? || f.RateZero?
  }

  function ApplyLinear(m: Marks, s: Shock): Result<Marks, string>
    requires IsLinear(s.factor)
  {
    match s.factor
    case EquitySpot(name) =>
      if name !in m.equitySpots then Err("equity spot not in snapshot")
      else Ok(m.(equitySpots := m.equitySpots[name := Grow(m.equitySpots[name], s.amount)]))
    case FXSpot(pair) =>
      if pair !in m.fxSpots then Err("fx spot not in snapshot")
      else Ok(m.(fxSpots := m.fxSpots[pair := Grow(m.fxSpots[pair], s.amount)]))
    case RateZero(currency, tenor) => ShockRate(m, currency, TenorOf(tenor), s.amount)
  }

  type VolMarks = Result<(map<string, real>, map<string, V.Payload>), string>

  function WithEquityVols(m: Marks, r: VolMarks): Result<Marks, string> {
    match r
    case Err(e) => Err(e)
    case Ok(p) => Ok(m.(equityVols := p.0, volSurfaces := p.1))
  }

  function WithFxVols(m: Marks, r: VolMarks): Result<Marks, string> {
    match r
    case Err(e) => Err(e)
    case Ok(p) => Ok(m.(fxVols := p.0, volSurfaces := p.1))
  }

  ghost function ApplyVol(m: Marks, s: Shock): Result<Marks, string>
    requires !IsLinear(s.factor)
  {
    var shape := ShapeOf(s.factor.expiry, s.factor.moneyness);
    if s.factor.EquityVol?
    then WithEquityVols(m, ShockVol(m.equityVols, m.volSurfaces, s.factor.underlying, "equity", shape, s.amount))
    else WithFxVols(m, ShockVol(m.fxVols, m.volSurfaces, s.factor.pair, "fx", shape, s.amount))
  }

  ghost function ApplyOne(m: Marks, s: Shock): Result<Marks, string> {
    if IsLinear(s.factor) then ApplyLinear(m, s) else ApplyVol(m, s)
  }

  /** The marks after a list of shocks; the first failure is the outcome. */
  ghost function ApplyMarks(m: Marks, shocks: seq<Shock>): Result<Marks, string>
    decreases |shocks|
  {
    if shocks == [] then Ok(m)
    else match ApplyOne(m, shocks[0])
      case Err(e) => Err(e)
      case Ok(next) => ApplyMarks(next, shocks[1..])
  }

  function IdAfter(id: string, f: Factor): string {
    id + ":bump:" + Key(f) + if f.RateZero? then ":" + f.tenor else ""
  }

  function IdAfterAll(id: string, shocks: seq<Shock>): string
    decreases |shocks|
  {
    if shocks == [] then id else IdAfterAll(IdAfter(id, shocks[0].factor), shocks[1..])
  }

  ghost function ApplySpec(s: Snapshot, shocks: seq<Shock>): Result<Snapshot, string> {
    match ApplyMarks(s.marks, shocks)
    case Err(e) => Err(e)
    case Ok(m) => Ok(Snapshot(IdAfterAll(s.id, shocks), s.asOf, m))
  }

  // ----- the staging maps, updated in place -----

  method BumpVolSurfacePayload(p: V.Payload, name: string, expiry: string, moneyness: string, amount: real)
    returns (r: Result<V.Payload, string>)
    ensures r == ShockSurface(p, name, ShapeOf(expiry, moneyness), amount)
  {
    var surface := V.FromGrid(p.grid);
    if surface.Err? {
      return Err("bad surface");
    }
    var points := V.ShockPoints(surface.value, ShapeOf(expiry, moneyness), amount);
    r := Ok(V.Payload(if p.name == "" then name else p.name, p.assetClass, V.AtmVol(points, "1Y"), V.GridOf(points)));
  }

  class Staging {
    const base: Marks
    var equitySpots: map<string, real>
    var equityVols: map<string, real>
    var fxSpots: map<string, real>
    var fxVols: map<string, real>
    var rates: map<string, real>
    var keyRates: map<string, map<string, real>>
    var curves: seq<NamedCurve>
    var volSurfaces: map<string, V.Payload>

    /** The marks the staging maps stand for. */
    function Contents(): Marks
      reads this
    {
      base.(equitySpots := equitySpots, equityVols := equityVols, fxSpots := fxSpots, fxVols := fxVols,
            rates := rates, keyRates := keyRates, curves := curves, volSurfaces := volSurfaces)
    }

    /** _staging_maps. */
    constructor (m: Marks)
      ensures Contents() == m
    {
      base := m;
      equitySpots, equityVols, fxSpots, fxVols := m.equitySpots, m.equityVols, m.fxSpots, m.fxVols;
      rates, keyRates, curves, volSurfaces := m.rates, m.keyRates, m.curves, m.volSurfaces;
    }

    /** for name, payload in curves.items(): curves[name] = bumped, when the currency matches. */
    method StageCurves(currency: string, tenor: Option<string>, amount: real) returns (touched: bool)
      modifies `curves
      ensures curves == BumpCurves(old(curves), currency, tenor, amount)
      ensures touched <==> exists i :: 0 <= i < |old(curves)| && Touches(old(curves)[i], currency, tenor)
    {
      ghost var target := BumpCurves(curves, currency, tenor, amount);
      touched := false;
      for i := 0 to |curves|
        invariant |curves| == |old(curves)| && curves[..i] == target[..i] && curves[i..] == old(curves)[i..]
        invariant touched <==> exists j :: 0 <= j < i && Touches(old(curves)[j], currency, tenor)
      {
        var c := curves[i];
        if Touches(c, currency, tenor) {
          touched := true;
          curves := curves[i := c.(payload := c.payload.(zeros := BumpZeros(c.payload.zeros, tenor, amount)))];
        }
        assert curves[i] == target[i];
      }
    }

    method StageParallel(currency: string, amount: real) returns (ok: bool)
      modifies `rates, `keyRates, `curves
      ensures ok <==> currency in old(rates)
      ensures ok ==> rates == old(rates)[currency := old(rates)[currency] + amount]
      ensures ok ==> keyRates == BumpKeyRates(old(keyRates), currency, None, amount)
      ensures ok ==> curves == BumpCurves(old(curves), currency, None, amount)
    {
      if currency !in rates {
        return false;
      }
      rates := rates[currency := rates[currency] + amount];
      if currency in keyRates {
        keyRates := keyRates[currency := ShiftAll(keyRates[currency], amount)];
      }
      var _ := StageCurves(currency, None, amount);
      ok := true;
    }

    method StageTenor(currency: string, tenor: string, amount: real) returns (touched: bool)
      modifies `keyRates, `curves
      ensures touched <==> HasTenor(old(Contents()), currency, tenor)
      ensures keyRates == BumpKeyRates(old(keyRates), currency, Some(tenor), amount)
      ensures curves == BumpCurves(old(curves), currency, Some(tenor), amount)
    {
      touched := false;
      if currency in keyRates && tenor in keyRates[currency] {
        keyRates := keyRates[currency := ShiftOne(keyRates[currency], tenor, amount)];
        touched := true;
      }
      assert keyRates == BumpKeyRates(old(keyRates), currency, Some(tenor), amount);
      var inCurves := StageCurves(currency, Some(tenor), amount);
      touched := touched || inCurves;
    }

    /** _stage_rate_zero. */
    method StageRateZero(currency: string, tenor: string, amount: real) returns (ok: bool)
      modifies `rates, `keyRates, `curves
      ensures var spec := ShockRate(old(Contents()), currency, TenorOf(tenor), amount);
        ok == spec.Ok? && (ok ==> Contents() == spec.value)
    {
      if tenor in PARALLEL_TENORS {
        ok := StageParallel(currency, amount);
      } else {
        ok := StageTenor(currency, tenor, amount);
      }
    }

    method StageVol(name: string, assetClass: string, vols: map<string, real>, expiry: string, moneyness: string, amount: real)
      returns (r: Result<map<string, real>, string>)
      modifies `volSurfaces
      ensures var spec := ShockVol(vols, old(volSurfaces), name, assetClass, ShapeOf(expiry, moneyness), amount);
        r.Ok? == spec.Ok? && (r.Ok? ==> (r.value, volSurfaces) == spec.value)
    {
      if name !in vols {
        return Err("vol not in snapshot");
      }
      var shocked := vols[name := V.Floor(Grow(vols[name], amount))];
      if name in volSurfaces && Lower(volSurfaces[name].assetClass) == assetClass {
        var payload := BumpVolSurfacePayload(volSurfaces[name], name, expiry, moneyness, amount);
        if payload.Err? {
          return Err(payload.error);
        }
        volSurfaces := volSurfaces[name := payload.value];
        shocked := shocked[name := payload.value.atmVol];
        assert shocked == vols[name := payload.value.atmVol];
      }
      r := Ok(shocked);
    }

    method StageEquityVol(s: Shock) returns (ok: bool)
      requires s.factor.EquityVol?
      modifies `equityVols, `volSurfaces
      ensures var spec := ApplyVol(old(Contents()), s);
        ok == spec.Ok? && (ok ==> Contents() == spec.value)
    {
      var f := s.factor;
      var vols := StageVol(f.underlying, "equity", equityVols, f.expiry, f.moneyness, s.amount);
      ok := vols.Ok?;
      if ok {
        equityVols := vols.value;
      }
    }

    method StageFxVol(s: Shock) returns (ok: bool)
      requires s.factor.FXVol?
      modifies `fxVols, `volSurfaces
      ensures var spec := ApplyVol(old(Contents()), s);
        ok == spec.Ok? && (ok ==> Contents() == spec.value)
    {
      var f := s.factor;
      var vols := StageVol(f.pair, "fx", fxVols, f.expiry, f.moneyness, s.amount);
      ok := vols.Ok?;
      if ok {
        fxVols := vols.value;
      }
    }

    method StageSpot(s: Shock) returns (ok: bool)
      requires s.factor.EquitySpot? || s.factor.FXSpot?
      modifies `equitySpots, `fxSpots
      ensures var spec := ApplyLinear(old(Contents()), s);
        ok == spec.Ok? && (ok ==> Contents() == spec.value)
    {
      match s.factor {
        case EquitySpot(name) =>
          ok := name in equitySpots;
          if ok {
            equitySpots := equitySpots[name := Grow(equitySpots[name], s.amount)];
          }
        case FXSpot(pair) =>
          ok := pair in fxSpots;
          if ok {
            fxSpots := fxSpots[pair := Grow(fxSpots[pair], s.amount)];
          }
      }
    }

    /** _stage_shock: the chained id, or the failure. */
    method StageShock(s: Shock, currentId: string) returns (r: Result<string, string>)
      modifies this
      ensures var spec := ApplyOne(old(Contents()), s);
        r.Ok? == spec.Ok? && (r.Ok? ==> r.value == IdAfter(currentId, s.factor) && Contents() == spec.value)
    {
      var ok: bool;
      match s.factor {
        case EquitySpot(_) => ok := StageSpot(s);
        case FXSpot(_) => ok := StageSpot(s);
        case EquityVol(_, _, _) => ok := StageEquityVol(s);
        case FXVol(_, _, _) => ok := StageFxVol(s);
        case RateZero(currency, tenor) => ok := StageRateZero(currency, tenor, s.amount);
      }
      r := if ok then Ok(IdAfter(currentId, s.factor)) else Err("not in snapshot");
    }
  }

  /** MarketSnapshot.apply: one staging, every shock in turn, one new snapshot. */
  method Apply(s: Snapshot, shocks: seq<Shock>) returns (r: Result<Snapshot, string>)
    ensures var spec := ApplySpec(s, shocks);
      r.Ok? == spec.Ok? && (r.Ok? ==> r.value == spec.value)
  {
    if shocks == [] {
      return Ok(s);
    }
    var staging := new Staging(s.marks);
    var id := s.id;
    for i := 0 to |shocks|
      invariant fresh(staging)
      invariant ApplyMarks(staging.Contents(), shocks[i..]) == ApplyMarks(s.marks, shocks)
      invariant IdAfterAll(id, shocks[i..]) == IdAfterAll(s.id, shocks)
    {
      var next := staging.StageShock(shocks[i], id);
      assert shocks[i..][0] == shocks[i] && shocks[i..][1..] == shocks[i + 1..];
      if next.Err? {
        return Err(next.error);
      }
      id := next.value;
    }
    r := Ok(Snapshot(id, s.asOf, staging.Contents()));
  }

  /** MarketSnapshot.bump. */
  method Bump(s: Snapshot, shock: Shock) returns (r: Result<Snapshot, string>)
    ensures var spec := ApplySpec(s, [shock]);
      r.Ok? == spec.Ok? && (r.Ok? ==> r.value == spec.value)
  {
    r := Apply(s, [shock]);
  }
}
