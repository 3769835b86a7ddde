/**
 * The curve construction cache and the key that must decide the curve
 * (pricing/curve_cache.py; select_yield_curve in pricing/curve_rates.py).
 */
module CurveCache {
  import opened Wrappers
  import Vectors
  import opened Strings
  import opened Lru
  import opened Curves
  import opened Factors
  import opened Snapshots
  import opened ShockAlgebra
  import opened CurveRates

  /** What the fingerprint hashes, with the currency in upper case and the preference. Curve order is not part of it. */
  datatype CurveKey = CurveKey(
    currency: string,
    rate: Option<real>,
    projection: Option<real>,
    keyRates: Option<map<string, real>>,
    curves: map<string, CurvePayload>,
    preferProjection: bool)

  /** marks.get(currency, marks.get(upper)). */
  function GetEither(marks: map<string, real>, currency: string): Option<real> {
    if currency in marks then Some(marks[currency])
    else if Upper(currency) in marks then Some(marks[Upper(currency)])
    else None
  }

  /** key_rates.get(currency) or key_rates.get(upper). */
  function NestedKeyRates(keyRates: map<string, map<string, real>>, currency: string): Option<map<string, real>> {
    if currency in keyRates && keyRates[currency] != map[] then Some(keyRates[currency])
    else if Upper(currency) in keyRates then Some(keyRates[Upper(currency)])
    else None
  }

  function Matching(curves: seq<NamedCurve>, currency: string): seq<NamedCurve> {
    if curves == [] then []
    else
      var rest, c := Matching(curves[..|curves| - 1], currency), curves[|curves| - 1];
      if MatchesCurrency(c.payload, currency) then rest + [c] else rest
  }

  /** The entries of a dictionary, without their order. */
  function CurveMap(curves: seq<NamedCurve>): map<string, CurvePayload> {
    if curves == [] then map[]
    else CurveMap(curves[..|curves| - 1])[curves[|curves| - 1].key := curves[|curves| - 1].payload]
  }

  function KeyOf(m: Marks, currency: string, preferProjection: bool): CurveKey {
    CurveKey(Upper(currency), GetEither(m.rates, currency), GetEither(m.projectionRates, currency),
             NestedKeyRates(m.keyRates, currency), CurveMap(Matching(m.curves, currency)), preferProjection)
  }

  // ----- what the key forgets: the order of the curves -----

  lemma {:induction false} CurveMapHas(curves: seq<NamedCurve>, c: NamedCurve)
    requires DistinctCurves(curves)
    ensures c in curves <==> c.key in CurveMap(curves) && CurveMap(curves)[c.key] == c.payload
  {
    if curves != [] {
      var rest, last := curves[..|curves| - 1], curves[|curves| - 1];
      CurveMapHas(rest, c);
      assert curves == rest + [last];
      if c.key == last.key {
        forall i | 0 <= i < |rest|
          ensures rest[i].key != c.key
        {
          assert curves[i].key != curves[|rest|].key;
        }
      }
    }
  }

  lemma {:induction false} DistinctOnce(curves: seq<NamedCurve>, c: NamedCurve)
    requires DistinctCurves(curves)
    ensures multiset(curves)[c] == if c in curves then 1 else 0
  {
    if curves != [] {
      var rest, last := curves[..|curves| - 1], curves[|curves| - 1];
      DistinctOnce(rest, c);
      assert curves == rest + [last];
      forall i | 0 <= i < |rest|
        ensures rest[i] != last
      {
        assert curves[i].key != curves[|rest|].key;
      }
    }
  }

  lemma SameMapPermuted(a: seq<NamedCurve>, b: seq<NamedCurve>)
    requires DistinctCurves(a) && DistinctCurves(b) && CurveMap(a) == CurveMap(b)
    ensures multiset(a) == multiset(b)
  {
    forall c
      ensures multiset(a)[c] == multiset(b)[c]
    {
      CurveMapHas(a, c);
      CurveMapHas(b, c);
      DistinctOnce(a, c);
      DistinctOnce(b, c);
    }
  }

  lemma {:induction false} MatchingDistinct(curves: seq<NamedCurve>, currency: string)
    requires DistinctCurves(curves)
    ensures DistinctCurves(Matching(curves, currency))
    ensures forall c :: c in Matching(curves, currency) <==> c in curves && MatchesCurrency(c.payload, currency)
  {
    if curves != [] {
      var rest, last := curves[..|curves| - 1], curves[|curves| - 1];
      MatchingDistinct(rest, currency);
      assert curves == rest + [last];
      forall c | c in rest
        ensures c.key != last.key
      {
        var i :| 0 <= i < |rest| && rest[i] == c;
        assert curves[i].key != curves[|rest|].key;
      }
    }
  }

  lemma {:induction false} CandidatesOfMatching(curves: seq<NamedCurve>, currency: string)
    ensures Candidates(Matching(curves, currency), currency) == Candidates(curves, currency)
  {
    if curves != [] {
      var rest, c := curves[..|curves| - 1], curves[|curves| - 1];
      CandidatesOfMatching(rest, currency);
      if MatchesCurrency(c.payload, currency) {
        CandidatesSnoc(Matching(rest, currency), c, currency);
      }
    }
  }

  lemma CandidatesSnoc(curves: seq<NamedCurve>, c: NamedCurve, currency: string)
    ensures Candidates(curves + [c], currency) == WithCandidate(Candidates(curves, currency), c, currency)
  {
    assert (curves + [c])[..|curves|] == curves;
  }

  // ----- candidates of a reordered dictionary -----

  /** What one entry adds. */
  ghost function CandidateOf(c: NamedCurve, currency: string): Result<seq<YieldCurve>, string> {
    WithCandidate(Ok([]), c, currency)
  }

  function Both(a: Result<seq<YieldCurve>, string>, b: Result<seq<YieldCurve>, string>): Result<seq<YieldCurve>, string> {
    if a.Err? then a else if b.Err? then b else Ok(a.value + b.value)
  }

  lemma AddBuiltIs(rest: Result<seq<YieldCurve>, string>, built: Result<Option<YieldCurve>, string>)
    ensures AddBuilt(rest, built) == Both(rest, AddBuilt(Ok([]), built))
  {
    if rest.Ok? && built.Ok? {
      match built.value {
        case None => assert rest.value + [] == rest.value;
        case Some(curve) => assert [] + [curve] == [curve];
      }
    }
  }

  lemma WithCandidateIs(rest: Result<seq<YieldCurve>, string>, c: NamedCurve, currency: string)
    ensures WithCandidate(rest, c, currency) == Both(rest, CandidateOf(c, currency))
  {
    AddBuiltIs(rest, BuildCurve(c.key, c.payload));
    BothEmpty(rest);
  }

  lemma CandidatesBoth(curves: seq<NamedCurve>, c: NamedCurve, currency: string)
    ensures Candidates(curves + [c], currency) == Both(Candidates(curves, currency), CandidateOf(c, currency))
  {
    CandidatesSnoc(curves, c, currency);
    WithCandidateIs(Candidates(curves, currency), c, currency);
  }

  lemma {:induction false} CandidatesJoin(a: seq<NamedCurve>, b: seq<NamedCurve>, currency: string)
    ensures Candidates(a + b, currency) == Both(Candidates(a, currency), Candidates(b, currency))
    decreases |b|
  {
    if b == [] {
      assert a + b == a;
      BothEmpty(Candidates(a, currency));
    } else {
      var rest, c := b[..|b| - 1], b[|b| - 1];
      CandidatesJoin(a, rest, currency);
      assert a + b == a + rest + [c] && b == rest + [c];
      CandidatesBoth(a + rest, c, currency);
      CandidatesBoth(rest, c, currency);
      BothAssociates(Candidates(a, currency), Candidates(rest, currency), CandidateOf(c, currency));
    }
  }

  lemma BothEmpty(a: Result<seq<YieldCurve>, string>)
    ensures Both(a, Ok([])) == a && Both(Ok([]), a) == a
  {
    if a.Ok? {
      assert a.value + [] == a.value && [] + a.value == a.value;
    }
  }

  lemma BothAssociates(a: Result<seq<YieldCurve>, string>, b: Result<seq<YieldCurve>, string>, c: Result<seq<YieldCurve>, string>)
    ensures Both(Both(a, b), c) == Both(a, Both(b, c))
  {
    if a.Ok? && b.Ok? && c.Ok? {
      assert a.value + b.value + c.value == a.value + (b.value + c.value);
    }
  }

  /** Equal as collections, or both failed alike. */
  ghost predicate SameCandidates(a: Result<seq<YieldCurve>, string>, b: Result<seq<YieldCurve>, string>) {
    if a.Err? then b == a else b.Ok? && multiset(a.value) == multiset(b.value)
  }

  lemma {:induction false} CandidatesError(curves: seq<NamedCurve>, currency: string)
    ensures Candidates(curves, currency).Err? ==> Candidates(curves, currency).error == "curve nodes must be strictly increasing in years"
  {
    if curves != [] {
      CandidatesError(curves[..|curves| - 1], currency);
    }
  }

  lemma BothSwapped(a: Result<seq<YieldCurve>, string>, x: Result<seq<YieldCurve>, string>, b: Result<seq<YieldCurve>, string>, e: string)
    requires (a.Err? ==> a.error == e) && (x.Err? ==> x.error == e) && (b.Err? ==> b.error == e)
    ensures SameCandidates(Both(x, Both(a, b)), Both(a, Both(x, b)))
  {
  }

  lemma SameAfter(x: Result<seq<YieldCurve>, string>, a: Result<seq<YieldCurve>, string>, b: Result<seq<YieldCurve>, string>)
    requires SameCandidates(a, b)
    ensures SameCandidates(Both(x, a), Both(x, b))
  {
  }

  lemma SameThrough(a: Result<seq<YieldCurve>, string>, b: Result<seq<YieldCurve>, string>, c: Result<seq<YieldCurve>, string>)
    requires SameCandidates(a, b) && SameCandidates(b, c)
    ensures SameCandidates(a, c)
  {
  }

  /** Moving one entry to the front. */
  lemma MovedToFront(p: seq<NamedCurve>, x: NamedCurve, q: seq<NamedCurve>, currency: string)
    ensures SameCandidates(Both(Candidates([x], currency), Candidates(p + q, currency)), Candidates(p + [x] + q, currency))
  {
    assert p + [x] + q == p + ([x] + q);
    CandidatesJoin(p, q, currency);
    CandidatesJoin(p, [x] + q, currency);
    CandidatesJoin([x], q, currency);
    CandidatesError([x], currency);
    CandidatesError(p, currency);
    CandidatesError(q, currency);
    BothSwapped(Candidates(p, currency), Candidates([x], currency), Candidates(q, currency), "curve nodes must be strictly increasing in years");
  }

  lemma PermutedStep(x: NamedCurve, a: seq<NamedCurve>, p: seq<NamedCurve>, q: seq<NamedCurve>, currency: string)
    requires SameCandidates(Candidates(a, currency), Candidates(p + q, currency))
    ensures SameCandidates(Candidates([x] + a, currency), Candidates(p + [x] + q, currency))
  {
    var one, rest := Candidates([x], currency), Candidates(p + q, currency);
    CandidatesJoin([x], a, currency);
    SameAfter(one, Candidates(a, currency), rest);
    MovedToFront(p, x, q, currency);
    SameThrough(Candidates([x] + a, currency), Both(one, rest), Candidates(p + [x] + q, currency));
  }

  /** The built curves of a reordered dictionary are the same collection. */
  lemma {:induction false} CandidatesPermuted(a: seq<NamedCurve>, b: seq<NamedCurve>, currency: string)
    requires multiset(a) == multiset(b)
    ensures SameCandidates(Candidates(a, currency), Candidates(b, currency))
    decreases |a|
  {
    if a == [] {
      assert |multiset(b)| == 0;
    } else {
      var k := Vectors.PermutedHead(a, b);
      CandidatesPermuted(a[1..], b[..k] + b[k + 1..], currency);
      PermutedStep(a[0], a[1..], b[..k], b[k + 1..], currency);
    }
  }

  // ----- when the order does not matter -----

  /** The type of curve that is returned. */
  function PreferredType(curves: seq<YieldCurve>, preferProjection: bool): CurveType
    requires curves != []
  {
    if preferProjection && FirstOf(curves, Projection).Some? then Projection
    else if FirstOf(curves, Discount).Some? then Discount
    else Projection
  }

  /** All candidates of that type are the same curve. */
  ghost predicate Unambiguous(curves: seq<YieldCurve>, preferProjection: bool) {
    forall x, y :: x in curves && y in curves && x.curveType == y.curveType == PreferredType(curves, preferProjection) ==> x == y
  }

  lemma PreferredHasType(curves: seq<YieldCurve>, preferProjection: bool)
    requires curves != []
    ensures Preferred(curves, preferProjection).Some?
    ensures Preferred(curves, preferProjection).value in curves
    ensures Preferred(curves, preferProjection).value.curveType == PreferredType(curves, preferProjection)
    ensures Preferred(curves, preferProjection) == FirstOf(curves, PreferredType(curves, preferProjection))
  {
    FirstIsOne(curves, Projection);
    FirstIsOne(curves, Discount);
    assert curves[0] in curves;
  }

  lemma {:induction false} FirstPermuted(a: seq<YieldCurve>, b: seq<YieldCurve>, t: CurveType)
    requires multiset(a) == multiset(b)
    ensures FirstOf(a, t).Some? == FirstOf(b, t).Some?
  {
    FirstIsOne(a, t);
    FirstIsOne(b, t);
    if FirstOf(a, t).Some? {
      assert FirstOf(a, t).value in multiset(b);
    }
    if FirstOf(b, t).Some? {
      assert FirstOf(b, t).value in multiset(a);
    }
  }

  lemma PreferredPermuted(a: seq<YieldCurve>, b: seq<YieldCurve>, preferProjection: bool)
    requires multiset(a) == multiset(b) && (a != [] ==> Unambiguous(a, preferProjection))
    ensures a == [] <==> b == []
    ensures Preferred(a, preferProjection) == Preferred(b, preferProjection)
  {
    assert |a| == |multiset(a)| == |b|;
    if a != [] {
      FirstPermuted(a, b, Projection);
      FirstPermuted(a, b, Discount);
      PreferredHasType(a, preferProjection);
      PreferredHasType(b, preferProjection);
      assert Preferred(b, preferProjection).value in multiset(a);
    }
  }

  ghost predicate ClearChoice(candidates: Result<seq<YieldCurve>, string>, preferProjection: bool) {
    candidates.Ok? && candidates.value != [] ==> Unambiguous(candidates.value, preferProjection)
  }

  ghost predicate OneCurveEach(m: Marks, currency: string, preferProjection: bool) {
    ClearChoice(Candidates(m.curves, currency), preferProjection)
  }

  lemma KeyRatesFromKey(m: Marks, c: string, n: Marks, d: string)
    requires Upper(c) == Upper(d) && NestedKeyRates(m.keyRates, c) == NestedKeyRates(n.keyRates, d)
    ensures FromKeyRates(m.keyRates, c) == FromKeyRates(n.keyRates, d)
  {
    NestedDecides(m.keyRates, c);
    NestedDecides(n.keyRates, d);
  }

  /** Empty key rates build nothing. */
  lemma NestedDecides(keyRates: map<string, map<string, real>>, c: string)
    ensures FromKeyRates(keyRates, c)
      == match NestedKeyRates(keyRates, c)
         case None => Ok(None)
         case Some(zeros) => BuildCurve(Upper(c) + "_KEY", KeyRatePayload(c, zeros))
  {
  }

  /** The key decides the selected curve, for markets that leave no choice between curves of the preferred type. */
  lemma KeyDecides(m: Marks, c: string, n: Marks, d: string, preferProjection: bool)
    requires DistinctCurves(m.curves) && DistinctCurves(n.curves)
    requires KeyOf(m, c, preferProjection) == KeyOf(n, d, preferProjection)
    requires OneCurveEach(m, c, preferProjection)
    ensures Select(m, c, preferProjection) == Select(n, d, preferProjection)
  {
    var a, b := Matching(m.curves, c), Matching(n.curves, d);
    MatchingDistinct(m.curves, c);
    MatchingDistinct(n.curves, d);
    SameMapPermuted(a, b);
    CandidatesOfMatching(m.curves, c);
    CandidatesOfMatching(n.curves, d);
    CandidatesPermuted(a, b, c);
    CandidatesOfCase(b, c, d);
    KeyRatesFromKey(m, c, n, d);
    if Candidates(m.curves, c).Ok? {
      PreferredPermuted(Candidates(m.curves, c).value, Candidates(n.curves, d).value, preferProjection);
    }
  }

  lemma {:induction false} CandidatesOfCase(curves: seq<NamedCurve>, c: string, d: string)
    requires Upper(c) == Upper(d)
    ensures Candidates(curves, c) == Candidates(curves, d)
  {
    if curves != [] {
      CandidatesOfCase(curves[..|curves| - 1], c, d);
    }
  }

  // ----- exactly when -----

  lemma {:induction false} FirstOfJoin(a: seq<YieldCurve>, b: seq<YieldCurve>, t: CurveType)
    ensures FirstOf(a + b, t) == if FirstOf(a, t).Some? then FirstOf(a, t) else FirstOf(b, t)
  {
    if a == [] {
      assert a + b == b;
    } else {
      assert (a + b)[1..] == a[1..] + b;
      FirstOfJoin(a[1..], b, t);
    }
  }

  /** Any curve of the preferred type is returned once its entry comes first. */
  lemma FirstWins(x: YieldCurve, rest: seq<YieldCurve>, preferProjection: bool)
    requires x.curveType == PreferredType([x] + rest, preferProjection)
    ensures Preferred([x] + rest, preferProjection) == Some(x)
  {
    PreferredHasType([x] + rest, preferProjection);
    assert ([x] + rest)[0] == x;
  }

  lemma TypePermuted(a: seq<YieldCurve>, b: seq<YieldCurve>, preferProjection: bool)
    requires multiset(a) == multiset(b) && a != []
    ensures b != [] && PreferredType(a, preferProjection) == PreferredType(b, preferProjection)
  {
    assert |a| == |multiset(a)| == |b|;
    FirstPermuted(a, b, Projection);
    FirstPermuted(a, b, Discount);
  }

  lemma OneCandidate(c: NamedCurve, currency: string)
    ensures Candidates([c], currency) == CandidateOf(c, currency)
  {
    assert [c][..0] == [];
  }

  lemma CandidateIs(c: NamedCurve, currency: string, x: YieldCurve)
    requires CandidateOf(c, currency).Ok? && x in CandidateOf(c, currency).value
    ensures CandidateOf(c, currency) == Ok([x])
  {
    if MatchesCurrency(c.payload, currency) {
      AddedIs(BuildCurve(c.key, c.payload), x);
    }
  }

  lemma AddedIs(built: Result<Option<YieldCurve>, string>, x: YieldCurve)
    requires AddBuilt(Ok([]), built).Ok? && x in AddBuilt(Ok([]), built).value
    ensures AddBuilt(Ok([]), built) == Ok([x])
  {
    if built.Ok? && built.value.Some? {
      assert [] + [built.value.value] == [built.value.value];
    }
  }

  /** The entry a candidate came from. */
  lemma {:induction false} CandidateSource(curves: seq<NamedCurve>, currency: string, x: YieldCurve) returns (k: nat)
    requires Candidates(curves, currency).Ok? && x in Candidates(curves, currency).value
    ensures k < |curves| && Candidates([curves[k]], currency) == Ok([x])
  {
    var n := |curves| - 1;
    var rest := Candidates(curves[..n], currency);
    WithCandidateIs(rest, curves[n], currency);
    if rest.Ok? && x in rest.value {
      k := CandidateSource(curves[..n], currency, x);
    } else {
      k := n;
      OneCandidate(curves[n], currency);
      CandidateIs(curves[n], currency, x);
    }
  }

  /** Some order of the same entries returns x. */
  lemma SomeOrderReturns(curves: seq<NamedCurve>, currency: string, preferProjection: bool, x: YieldCurve) returns (order: seq<NamedCurve>)
    requires Candidates(curves, currency).Ok? && x in Candidates(curves, currency).value
    requires x.curveType == PreferredType(Candidates(curves, currency).value, preferProjection)
    ensures multiset(order) == multiset(curves)
    ensures Candidates(order, currency).Ok? && Preferred(Candidates(order, currency).value, preferProjection) == Some(x)
  {
    var k := CandidateSource(curves, currency, x);
    var rest := curves[..k] + curves[k + 1..];
    order := [curves[k]] + rest;
    Vectors.MultisetRemove(curves, k);
    CandidatesPermuted(curves, order, currency);
    CandidatesJoin([curves[k]], rest, currency);
    var all := Candidates(order, currency).value;
    assert all == [x] + Candidates(rest, currency).value;
    TypePermuted(Candidates(curves, currency).value, all, preferProjection);
    FirstWins(x, Candidates(rest, currency).value, preferProjection);
  }

  ghost predicate OrderIgnored(m: Marks, currency: string, preferProjection: bool) {
    forall order :: multiset(order) == multiset(m.curves) ==>
      Select(m.(curves := order), currency, preferProjection) == Select(m, currency, preferProjection)
  }

  lemma UnambiguousSelect(m: Marks, currency: string, preferProjection: bool, order: seq<NamedCurve>)
    requires OneCurveEach(m, currency, preferProjection) && multiset(order) == multiset(m.curves)
    ensures Select(m.(curves := order), currency, preferProjection) == Select(m, currency, preferProjection)
  {
    CandidatesPermuted(m.curves, order, currency);
    PickPermuted(Candidates(m.curves, currency), Candidates(order, currency), FromKeyRates(m.keyRates, currency), preferProjection);
  }

  lemma PickPermuted(a: Result<seq<YieldCurve>, string>, b: Result<seq<YieldCurve>, string>, keyed: Result<Option<YieldCurve>, string>, preferProjection: bool)
    requires SameCandidates(a, b) && ClearChoice(a, preferProjection)
    ensures PickCurve(a, keyed, preferProjection) == PickCurve(b, keyed, preferProjection)
  {
    if a.Ok? {
      PreferredPermuted(a.value, b.value, preferProjection);
    }
  }

  lemma AmbiguousSelect(m: Marks, currency: string, preferProjection: bool)
    requires !OneCurveEach(m, currency, preferProjection)
    ensures !OrderIgnored(m, currency, preferProjection)
  {
    var candidates := Candidates(m.curves, currency).value;
    var t := PreferredType(candidates, preferProjection);
    var x, y :| x in candidates && y in candidates && x.curveType == y.curveType == t && x != y;
    var p := SomeOrderReturns(m.curves, currency, preferProjection, x);
    var q := SomeOrderReturns(m.curves, currency, preferProjection, y);
    SelectOf(m, p, currency, preferProjection, x);
    SelectOf(m, q, currency, preferProjection, y);
  }

  lemma SelectOf(m: Marks, order: seq<NamedCurve>, currency: string, preferProjection: bool, x: YieldCurve)
    requires Candidates(order, currency).Ok? && Preferred(Candidates(order, currency).value, preferProjection) == Some(x)
    ensures Select(m.(curves := order), currency, preferProjection) == Ok(Some(x))
  {
    PreferredIsOne(Candidates(order, currency).value, preferProjection);
  }

  /** The selection ignores the order of the dictionary exactly when the curves of the returned type are all the same. */
  lemma OrderIgnoredExactly(m: Marks, currency: string, preferProjection: bool)
    ensures OrderIgnored(m, currency, preferProjection) <==> OneCurveEach(m, currency, preferProjection)
  {
    if OneCurveEach(m, currency, preferProjection) {
      forall order | multiset(order) == multiset(m.curves)
        ensures Select(m.(curves := order), currency, preferProjection) == Select(m, currency, preferProjection)
      {
        UnambiguousSelect(m, currency, preferProjection, order);
      }
    } else {
      AmbiguousSelect(m, currency, preferProjection);
    }
  }

  // ----- the cache -----

  datatype Request = Request(marks: Marks, currency: string, preferProjection: bool)

  function RequestKey(r: Request): CurveKey {
    KeyOf(r.marks, r.currency, r.preferProjection)
  }

  ghost function Selected(r: Request): Result<Option<YieldCurve>, string> {
    Select(r.marks, r.currency, r.preferProjection)
  }

  /** Markets as dictionaries, with one curve of the preferred type. */
  ghost predicate Plain(r: Request) {
    DistinctCurves(r.marks.curves) && OneCurveEach(r.marks, r.currency, r.preferProjection)
  }

  lemma RequestKeyDecides(a: Request, b: Request)
    requires Plain(a) && Plain(b) && RequestKey(a) == RequestKey(b)
    ensures Selected(a) == Selected(b)
  {
    KeyDecides(a.marks, a.currency, b.marks, b.currency, a.preferProjection);
  }

  /** CurveConstructionCache. */
  class CurveConstructionCache {
    const maxsize: nat
    var order: seq<CurveKey>
    var entries: map<CurveKey, YieldCurve>
    var hits: nat
    var misses: nat

    ghost function Contents(): Store<CurveKey, YieldCurve>
      reads this
    {
      Store(order, entries)
    }

    ghost predicate Valid()
      reads this
    {
      maxsize >= 1 && Consistent(Contents()) && |order| <= maxsize
    }

    /** Every entry is the curve uncached selection gives for each plain request with that key. */
    ghost predicate Right()
      reads this
    {
      forall r: Request :: Plain(r) && RequestKey(r) in entries ==> Selected(r) == Ok(Some(entries[RequestKey(r)]))
    }

    constructor (maxsize: nat)
      requires maxsize >= 1
      ensures Valid() && Right() && Contents() == Empty() && hits == 0 && misses == 0
    {
      this.maxsize := maxsize;
      order, entries := [], map[];
      hits, misses := 0, 0;
    }

    /** Unlike the pricing cache, clearing resets the counters. */
    method Clear()
      requires Valid()
      modifies this
      ensures Valid() && Right() && Contents() == Empty() && hits == 0 && misses == 0
    {
      order, entries := [], map[];
      hits, misses := 0, 0;
    }

    method Get(k: CurveKey) returns (cached: Option<YieldCurve>)
      requires Valid()
      modifies `order, `hits, `misses
      ensures Valid()
      ensures cached == if k in entries then Some(entries[k]) else None
      ensures Contents() == if k in entries then Touch(old(Contents()), k) else old(Contents())
      ensures hits == old(hits) + (if cached.Some? then 1 else 0)
      ensures misses == old(misses) + (if cached.Some? then 0 else 1)
    {
      if k !in entries {
        misses := misses + 1;
        return None;
      }
      TouchKeeps(Contents(), k);
      order := Without(order, k) + [k];
      hits := hits + 1;
      cached := Some(entries[k]);
    }

    method Put(k: CurveKey, curve: YieldCurve) returns (kept: YieldCurve)
      requires Valid()
      modifies `order, `entries
      ensures Valid() && Contents() == Insert(old(Contents()), k, curve, maxsize)
      ensures kept == if k in old(entries) then old(entries)[k] else curve
    {
      if k in entries {
        TouchKeeps(Contents(), k);
        order := Without(order, k) + [k];
        return entries[k];
      }
      AssignKeeps(Contents(), k, curve);
      order, entries := Without(order, k) + [k], entries[k := curve];
      ghost var start := Contents();
      SizeIsLength(Contents());
      while |entries| > maxsize
        invariant Consistent(Contents()) && |entries| == |order|
        invariant Trim(Contents(), maxsize) == Trim(start, maxsize)
      {
        DropOldestKeeps(Contents());
        TrimAfterDrop(Contents(), maxsize);
        entries := entries - {order[0]};
        order := order[1..];
        SizeIsLength(Contents());
      }
      TrimKeeps(start, maxsize);
      kept := curve;
    }

    /** select_yield_curve: for plain markets the memoised selection is the uncached one, whatever was asked, kept or evicted before. */
    method SelectYieldCurve(m: Marks, currency: string, preferProjection: bool) returns (r: Result<Option<YieldCurve>, string>)
      requires Valid() && Right() && Plain(Request(m, currency, preferProjection))
      modifies this
      ensures Valid() && Right()
      ensures r == Select(m, currency, preferProjection)
      ensures hits + misses == old(hits + misses) + 1
    {
      ghost var request := Request(m, currency, preferProjection);
      var key := KeyOf(m, currency, preferProjection);
      var hit := Get(key);
      if hit.Some? {
        assert RequestKey(request) in entries;
        return Ok(Some(hit.value));
      }
      var built := SelectUncached(m, currency, preferProjection);
      if built.Err? || built.value.None? {
        return built;
      }
      ghost var before := Contents();
      var kept := Put(key, built.value.value);
      RightAfterInsert(before, request, built.value.value, maxsize);
      r := Ok(Some(kept));
    }
  }

  ghost predicate RightStore(s: Store<CurveKey, YieldCurve>) {
    forall r: Request :: Plain(r) && RequestKey(r) in s.entries ==> Selected(r) == Ok(Some(s.entries[RequestKey(r)]))
  }

  lemma RightAfterInsert(s: Store<CurveKey, YieldCurve>, request: Request, curve: YieldCurve, maxsize: nat)
    requires Consistent(s) && |s.order| <= maxsize && RightStore(s)
    requires Plain(request) && Selected(request) == Ok(Some(curve)) && RequestKey(request) !in s.entries
    ensures RightStore(Insert(s, RequestKey(request), curve, maxsize))
  {
    var t := Insert(s, RequestKey(request), curve, maxsize);
    InsertKeeps(s, RequestKey(request), curve, maxsize);
    forall r: Request | Plain(r) && RequestKey(r) in t.entries
      ensures Selected(r) == Ok(Some(t.entries[RequestKey(r)]))
    {
      if RequestKey(r) !in s.entries {
        RequestKeyDecides(request, r);
      }
    }
  }

  // ----- which shocks the key sees -----

  predicate NoRates(shocks: seq<Shock>) {
    forall i :: 0 <= i < |shocks| ==> !shocks[i].factor.RateZero?
  }

  predicate SameRates(m: Marks, n: Marks) {
    n.rates == m.rates && n.projectionRates == m.projectionRates && n.keyRates == m.keyRates && n.curves == m.curves
  }

  lemma MoveKeepsRates(m: Marks, v: Move, a: real)
    requires CanMove(m, v) && !v.OnRate?
    ensures SameRates(m, Moved(m, v, a))
  {
  }

  lemma WithVolsKeepsRates(m: Marks, r: VolMarks)
    requires r.Ok?
    ensures SameRates(m, WithEquityVols(m, r).value) && SameRates(m, WithFxVols(m, r).value)
  {
  }

  lemma VolKeepsRates(m: Marks, s: Shock)
    requires !IsLinear(s.factor) && ApplyVol(m, s).Ok?
    ensures SameRates(m, ApplyVol(m, s).value)
  {
    var shape := ShapeOf(s.factor.expiry, s.factor.moneyness);
    if s.factor.EquityVol? {
      WithVolsKeepsRates(m, ShockVol(m.equityVols, m.volSurfaces, s.factor.underlying, "equity", shape, s.amount));
    } else {
      WithVolsKeepsRates(m, ShockVol(m.fxVols, m.volSurfaces, s.factor.pair, "fx", shape, s.amount));
    }
  }

  lemma OneKeepsKey(m: Marks, s: Shock)
    requires !s.factor.RateZero? && ApplyOne(m, s).Ok?
    ensures SameRates(m, ApplyOne(m, s).value)
  {
    if IsLinear(s.factor) {
      LinearIsMove(m, s);
      MoveKeepsRates(m, MoveOf(s.factor), s.amount);
    } else {
      VolKeepsRates(m, s);
    }
  }

  /** Shocks of spots and vols leave every curve key as it was: they are hits. */
  lemma {:induction false} OtherShocksKeepKey(m: Marks, shocks: seq<Shock>, currency: string, preferProjection: bool)
    requires NoRates(shocks) && ApplyMarks(m, shocks).Ok?
    ensures KeyOf(ApplyMarks(m, shocks).value, currency, preferProjection) == KeyOf(m, currency, preferProjection)
    decreases |shocks|
  {
    if shocks != [] {
      OneKeepsKey(m, shocks[0]);
      OtherShocksKeepKey(ApplyOne(m, shocks[0]).value, shocks[1..], currency, preferProjection);
    }
  }

  lemma BumpedStaysDistinct(curves: seq<NamedCurve>, currency: string, tenor: Option<string>, a: real)
    requires DistinctCurves(curves)
    ensures DistinctCurves(BumpCurves(curves, currency, tenor, a))
  {
    var bumped := BumpCurves(curves, currency, tenor, a);
    forall i, j | 0 <= i < j < |bumped|
      ensures bumped[i].key != bumped[j].key
    {
      assert bumped[i].key == curves[i].key && bumped[j].key == curves[j].key;
    }
  }

  /** A curve with the tenor shows in the dictionary. */
  lemma BumpChangesMap(curves: seq<NamedCurve>, currency: string, tenor: string, a: real, i: nat)
    requires DistinctCurves(curves) && i < |curves| && Touches(curves[i], currency, Some(tenor)) && a != 0.0
    ensures CurveMap(Matching(BumpCurves(curves, currency, Some(tenor), a), currency)) != CurveMap(Matching(curves, currency))
  {
    var bumped := BumpCurves(curves, currency, Some(tenor), a);
    var c, d := curves[i], bumped[i];
    BumpedStaysDistinct(curves, currency, Some(tenor), a);
    MatchingDistinct(curves, currency);
    MatchingDistinct(bumped, currency);
    CurveMapHas(Matching(curves, currency), c);
    CurveMapHas(Matching(bumped, currency), d);
    assert d.key == c.key && d.payload.zeros[tenor] == c.payload.zeros[tenor] + a;
  }

  lemma BumpChangesKeyRates(keyRates: map<string, map<string, real>>, currency: string, tenor: string, a: real)
    requires currency in keyRates && tenor in keyRates[currency] && a != 0.0
    ensures NestedKeyRates(BumpKeyRates(keyRates, currency, Some(tenor), a), currency) != NestedKeyRates(keyRates, currency)
  {
    var zeros := keyRates[currency];
    var bumped := BumpZeros(zeros, Some(tenor), a);
    assert bumped[tenor] == zeros[tenor] + a;
    assert tenor in bumped && zeros != map[] && bumped != map[];
  }

  lemma ParallelChangesRates(rates: map<string, real>, currency: string, a: real)
    requires currency in rates && a != 0.0
    ensures GetEither(ShiftScalar(rates, currency, None, a), currency) != GetEither(rates, currency)
  {
  }

  /** Keys differ where one of their parts does. */
  lemma PartsDecide(m: Marks, n: Marks, currency: string, preferProjection: bool)
    requires KeyOf(m, currency, preferProjection) == KeyOf(n, currency, preferProjection)
    ensures GetEither(m.rates, currency) == GetEither(n.rates, currency)
    ensures NestedKeyRates(m.keyRates, currency) == NestedKeyRates(n.keyRates, currency)
    ensures CurveMap(Matching(m.curves, currency)) == CurveMap(Matching(n.curves, currency))
  {
  }

  /** Any rate shock of the currency that goes through, parallel or of one tenor, changes the key: no stale curve is served. */
  lemma RateShockChangesKey(m: Marks, currency: string, tenor: Option<string>, preferProjection: bool, a: real)
    requires CanShift(m, currency, tenor) && a != 0.0 && (tenor.Some? ==> DistinctCurves(m.curves))
    ensures KeyOf(ShiftRates(m, currency, tenor, a), currency, preferProjection) != KeyOf(m, currency, preferProjection)
  {
    if KeyOf(ShiftRates(m, currency, tenor, a), currency, preferProjection) == KeyOf(m, currency, preferProjection) {
      PartsDecide(ShiftRates(m, currency, tenor, a), m, currency, preferProjection);
      RatePartChanges(m, currency, tenor, a);
    }
  }

  lemma RatePartChanges(m: Marks, currency: string, tenor: Option<string>, a: real)
    requires CanShift(m, currency, tenor) && a != 0.0 && (tenor.Some? ==> DistinctCurves(m.curves))
    ensures GetEither(ShiftScalar(m.rates, currency, tenor, a), currency) != GetEither(m.rates, currency)
      || NestedKeyRates(BumpKeyRates(m.keyRates, currency, tenor, a), currency) != NestedKeyRates(m.keyRates, currency)
      || CurveMap(Matching(BumpCurves(m.curves, currency, tenor, a), currency)) != CurveMap(Matching(m.curves, currency))
  {
    match tenor
    case None => ParallelChangesRates(m.rates, currency, a);
    case Some(t) =>
      if currency in m.keyRates && t in m.keyRates[currency] {
        BumpChangesKeyRates(m.keyRates, currency, t, a);
      } else {
        var i :| 0 <= i < |m.curves| && Touches(m.curves[i], currency, Some(t));
        BumpChangesMap(m.curves, currency, t, a, i);
      }
  }
}
