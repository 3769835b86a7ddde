/**
 * select_yield_curve under threads (pricing/curve_rates.py, pricing/curve_cache.py): the process-wide cache gives up its
 * lock between get and put, so the steps are those of the pricing cache.
 */
module CurveCacheProtocol {
  import opened Wrappers
  import opened Vectors
  import opened Curves
  import opened Snapshots
  import opened CurveRates
  import opened CurveCache
  import opened PricingCache
  import opened CacheProtocol
  import ValuationKeys

  /** Why no curve is stored: there is none, or building one raised. */
  datatype Unbuilt = NoCurve | Failed(message: string)

  function Stored(selected: Result<Option<YieldCurve>, string>): Result<YieldCurve, Unbuilt> {
    match selected
    case Err(e) => Err(Failed(e))
    case Ok(None) => Err(NoCurve)
    case Ok(Some(curve)) => Ok(curve)
  }

  ghost function Builder(): CurveCache.Request -> Result<YieldCurve, Unbuilt> {
    (r: CurveCache.Request) => Stored(Selected(r))
  }

  function Keys(): CurveCache.Request -> Result<CurveKey, Unbuilt> {
    (r: CurveCache.Request) => Ok(CurveCache.RequestKey(r))
  }

  ghost function CurveSetup(maxsize: nat): Setup<CurveCache.Request, CurveKey, YieldCurve, Unbuilt> {
    Setup(Builder(), Keys(), maxsize)
  }

  /** For plain markets every thread gets the curve it would have built, whatever others look up, build, store, evict or clear. */
  lemma ThreadsGetTheirCurves(universe: iset<CurveCache.Request>, maxsize: nat)
    requires maxsize >= 1 && forall r :: r in universe ==> Plain(r)
    ensures Transparent(CurveSetup(maxsize), universe)
  {
    var c := CurveSetup(maxsize);
    forall a, b | a in universe && b in universe && c.keyOf(a).Ok? && c.keyOf(a) == c.keyOf(b) && c.inner(a).Ok?
      ensures c.inner(b) == c.inner(a)
    {
      RequestKeyDecides(a, b);
    }
    TransparentExactly(c, universe);
  }

  // ----- and exactly then, among the orders of one dictionary -----

  /** One market in every order of its curves. */
  ghost function Orders(m: Marks, currency: string, preferProjection: bool): iset<CurveCache.Request> {
    iset order: seq<NamedCurve> | multiset(order) == multiset(m.curves) :: CurveCache.Request(m.(curves := order), currency, preferProjection)
  }

  lemma {:induction false} MatchingJoin(a: seq<NamedCurve>, b: seq<NamedCurve>, currency: string)
    ensures Matching(a + b, currency) == Matching(a, currency) + Matching(b, currency)
    decreases |b|
  {
    if b == [] {
      assert a + b == a;
    } else {
      assert (a + b)[..|a + b| - 1] == a + b[..|b| - 1];
      MatchingJoin(a, b[..|b| - 1], currency);
    }
  }

  lemma {:induction false} MatchingPermuted(a: seq<NamedCurve>, b: seq<NamedCurve>, currency: string)
    requires multiset(a) == multiset(b)
    ensures multiset(Matching(a, currency)) == multiset(Matching(b, currency))
    decreases |a|
  {
    if a == [] {
      assert |multiset(b)| == 0;
      assert b == [];
    } else {
      var k := PermutedHead(a, b);
      assert a == [a[0]] + a[1..] && b == b[..k] + ([a[0]] + b[k + 1..]);
      MatchingPermuted(a[1..], b[..k] + b[k + 1..], currency);
      MatchingJoin([a[0]], a[1..], currency);
      MatchingJoin(b[..k], [a[0]] + b[k + 1..], currency);
      MatchingJoin([a[0]], b[k + 1..], currency);
      MatchingJoin(b[..k], b[k + 1..], currency);
    }
  }

  lemma OrdersShareKey(m: Marks, currency: string, preferProjection: bool, order: seq<NamedCurve>)
    requires DistinctCurves(m.curves) && multiset(order) == multiset(m.curves)
    ensures KeyOf(m.(curves := order), currency, preferProjection) == KeyOf(m, currency, preferProjection)
  {
    ValuationKeys.PermutedDistinct(m.curves, order);
    MatchingDistinct(m.curves, currency);
    MatchingDistinct(order, currency);
    MatchingPermuted(m.curves, order, currency);
    ValuationKeys.PermutedSameMap(Matching(m.curves, currency), Matching(order, currency));
  }

  lemma OrderSelects(m: Marks, currency: string, preferProjection: bool, a: CurveCache.Request)
    requires OneCurveEach(m, currency, preferProjection) && a in Orders(m, currency, preferProjection)
    ensures Builder()(a) == Stored(Select(m, currency, preferProjection))
  {
    UnambiguousSelect(m, currency, preferProjection, a.marks.curves);
  }

  lemma ClearOrdersSound(m: Marks, currency: string, preferProjection: bool)
    requires OneCurveEach(m, currency, preferProjection)
    ensures KeySound(Builder(), Keys(), Orders(m, currency, preferProjection))
  {
    forall a | a in Orders(m, currency, preferProjection)
      ensures Builder()(a) == Stored(Select(m, currency, preferProjection))
    {
      OrderSelects(m, currency, preferProjection, a);
    }
  }

  lemma StoredOnce(a: Result<Option<YieldCurve>, string>, b: Result<Option<YieldCurve>, string>)
    requires a.Ok? && a.value.Some? && Stored(a) == Stored(b)
    ensures a == b
  {
  }

  lemma SharedKeyDiffers(m: Marks, currency: string, preferProjection: bool)
    requires DistinctCurves(m.curves) && !OneCurveEach(m, currency, preferProjection)
    ensures !KeySound(Builder(), Keys(), Orders(m, currency, preferProjection))
  {
    AmbiguousSelect(m, currency, preferProjection);
    PreferredIsOne(Candidates(m.curves, currency).value, preferProjection);
    var order :| multiset(order) == multiset(m.curves)
      && Select(m.(curves := order), currency, preferProjection) != Select(m, currency, preferProjection);
    var a, b := CurveCache.Request(m, currency, preferProjection), CurveCache.Request(m.(curves := order), currency, preferProjection);
    assert m == m.(curves := m.curves);
    assert a in Orders(m, currency, preferProjection) && b in Orders(m, currency, preferProjection);
    OrdersShareKey(m, currency, preferProjection, order);
    assert Keys()(a) == Keys()(b) && Builder()(a).Ok?;
    if Builder()(b) == Builder()(a) {
      StoredOnce(Selected(a), Selected(b));
    }
  }

  /**
   * A market that comes with its curves in any order: threads that share the cache all get the curve they would have built,
   * exactly when the market leaves no choice between curves of the preferred type.
   */
  lemma OrdersTransparentExactly(m: Marks, currency: string, preferProjection: bool, maxsize: nat)
    requires DistinctCurves(m.curves) && maxsize >= 1
    ensures Transparent(CurveSetup(maxsize), Orders(m, currency, preferProjection)) <==> OneCurveEach(m, currency, preferProjection)
  {
    if OneCurveEach(m, currency, preferProjection) {
      ClearOrdersSound(m, currency, preferProjection);
    } else {
      SharedKeyDiffers(m, currency, preferProjection);
    }
    TransparentExactly(CurveSetup(maxsize), Orders(m, currency, preferProjection));
  }
}
