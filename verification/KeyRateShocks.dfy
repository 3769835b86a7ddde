/**
 * What a shock of one tenor does to the rates resolved from a snapshot, as the key-rate sensitivities use it
 * (domain/models.py, _stage_rate_zero; pricing/curve_rates.py; risk/sensitivities.py).
 */
module KeyRateShocks {
  import opened Wrappers
  import opened Strings
  import opened RealMath
  import opened Vectors
  import opened Factors
  import opened SortedSets
  import opened Curves
  import opened Snapshots
  import opened ShockAlgebra
  import opened CurveRates
  import opened CurveCache

  /** Does a shock that names the currency reach its selected curve? It misses key rates kept under another case. */
  ghost predicate Reaches(m: Marks, currency: string) {
    Candidates(m.curves, currency) != Ok([]) || KeyRateKey(m.keyRates, currency) == Some(currency)
  }

  /** The tent of a tenor on the selected curve. */
  ghost function TentAt(m: Marks, currency: string, tenor: string, t: real, preferProjection: bool): real {
    SelectValid(m, currency, preferProjection);
    match Select(m, currency, preferProjection)
    case Ok(Some(c)) => if Reaches(m, currency) then Tent(c.nodes, Some(tenor), t) else 0.0
    case _ => 0.0
  }

  lemma ReachKept(m: Marks, currency: string, tenor: Option<string>, a: real)
    ensures Reaches(ShiftRates(m, currency, tenor, a), currency) == Reaches(m, currency)
  {
    CandidatesShifted(m.curves, currency, tenor, a);
    KeyRateKeyShifted(m.keyRates, currency, tenor, a);
    var candidates := Candidates(m.curves, currency);
    assert ShiftedCandidates(candidates, tenor, a) == Ok([]) <==> candidates == Ok([]);
  }

  lemma ResolveTenor(c: YieldCurve, scalar: Option<real>, tenor: string, t: real, a: real, h: real)
    requires ValidNodes(c.nodes) && h == Tent(c.nodes, Some(tenor), t)
    ensures ValidNodes(ShiftedCurve(c, Some(tenor), a).nodes)
    ensures Required(Resolve(Ok(Some(ShiftedCurve(c, Some(tenor), a))), scalar, t)) == MovedBy(Required(Resolve(Ok(Some(c)), scalar, t)), a * h)
  {
    ShiftMoves(c.nodes, Some(tenor), a, t, h);
  }

  lemma StaysPut(r: Result<real, string>, a: real, h: real)
    requires h == 0.0
    ensures MovedBy(r, a * h) == r
  {
    MulZero(a, h);
    assert a * h == 0.0;
  }

  /** A shock of one tenor moves the resolved zero, at every maturity and on every path, by exactly its tent. */
  lemma TenorShockMovesZero(m: Marks, currency: string, tenor: string, t: real, preferProjection: bool, a: real, h: real)
    requires h == TentAt(m, currency, tenor, t, preferProjection)
    ensures RequiredZero(ShiftRates(m, currency, Some(tenor), a), currency, t, preferProjection)
         == MovedBy(RequiredZero(m, currency, t, preferProjection), a * h)
  {
    var selected, shifted := Select(m, currency, preferProjection), ShiftRates(m, currency, Some(tenor), a);
    SelectValid(m, currency, preferProjection);
    SelectValid(shifted, currency, preferProjection);
    SelectShifted(m, currency, preferProjection, Some(tenor), a);
    assert Scalar(shifted, currency, preferProjection) == Scalar(m, currency, preferProjection);
    if selected.Ok? && selected.value.Some? && Reaches(m, currency) {
      ResolveTenor(selected.value.value, Scalar(m, currency, preferProjection), tenor, t, a, h);
    } else {
      StaysPut(RequiredZero(m, currency, t, preferProjection), a, h);
    }
  }

  // ----- the tenors of the selected curve -----

  ghost predicate DistinctTenors(nodes: seq<CurveNode>) {
    forall i, j :: 0 <= i < j < |nodes| ==> nodes[i].tenor != nodes[j].tenor
  }

  /** Every node comes from a mark of the payload whose tenor parses. */
  ghost predicate FromZeros(nodes: seq<CurveNode>, zeros: map<string, real>) {
    forall i :: 0 <= i < |nodes| ==> IsPillar(nodes[i], zeros)
  }

  lemma BuiltTenors(key: string, p: CurvePayload, c: YieldCurve)
    requires BuildCurve(key, p) == Ok(Some(c))
    ensures DistinctTenors(c.nodes) && FromZeros(c.nodes, p.zeros)
  {
    var nodes := PillarNodes(p.zeros);
    PillarsAre(p.zeros);
    InOrderLists(nodes);
    forall i | 0 <= i < |c.nodes|
      ensures IsPillar(c.nodes[i], p.zeros)
    {
      assert c.nodes[i] in nodes;
    }
    forall i, j | 0 <= i < j < |c.nodes|
      ensures c.nodes[i].tenor != c.nodes[j].tenor
    {
      assert Earlier(c.nodes[i], c.nodes[j]);
    }
  }

  /** Where the zeros of the selected curve are marked; a shock that reaches the curve finds every tenor there. */
  lemma SelectedZeros(m: Marks, currency: string, preferProjection: bool, c: YieldCurve) returns (zeros: map<string, real>)
    requires Select(m, currency, preferProjection) == Ok(Some(c))
    ensures DistinctTenors(c.nodes) && FromZeros(c.nodes, zeros)
    ensures Reaches(m, currency) ==> forall tenor :: tenor in zeros ==> HasTenor(m, currency, tenor)
  {
    var candidates := Candidates(m.curves, currency);
    if candidates.Ok? && candidates.value != [] {
      PreferredIsOne(candidates.value, preferProjection);
      var k := CandidateSource(m.curves, currency, c);
      zeros := OneSource(m.curves[k], currency, c);
      forall tenor | tenor in zeros
        ensures HasTenor(m, currency, tenor)
      {
        assert Touches(m.curves[k], currency, Some(tenor));
      }
    } else {
      var k := KeyRateKey(m.keyRates, currency).value;
      zeros := m.keyRates[k];
      BuiltTenors(Upper(currency) + "_KEY", KeyRatePayload(currency, zeros), c);
    }
  }

  lemma OneSource(curve: NamedCurve, currency: string, c: YieldCurve) returns (zeros: map<string, real>)
    requires Candidates([curve], currency) == Ok([c])
    ensures MatchesCurrency(curve.payload, currency) && zeros == curve.payload.zeros
    ensures DistinctTenors(c.nodes) && FromZeros(c.nodes, zeros)
  {
    zeros := curve.payload.zeros;
    OneCandidate(curve, currency);
    BuiltAlone(BuildCurve(curve.key, curve.payload), c);
    BuiltTenors(curve.key, curve.payload, c);
  }

  lemma BuiltAlone(built: Result<Option<YieldCurve>, string>, c: YieldCurve)
    requires AddBuilt(Ok([]), built) == Ok([c])
    ensures built == Ok(Some(c))
  {
    if built.Ok? && built.value.Some? {
      assert ([] + [built.value.value])[0] == [c][0];
    }
  }

  /** A tenor on the selected curve has the tent of its pillar; any other, one that does not parse among them, has none. */
  lemma TentAtIs(m: Marks, currency: string, tenor: string, t: real, preferProjection: bool, c: YieldCurve)
    requires Select(m, currency, preferProjection) == Ok(Some(c)) && Reaches(m, currency)
    ensures ValidNodes(c.nodes)
    ensures forall i :: 0 <= i < |c.nodes| && c.nodes[i].tenor == tenor ==>
      TentAt(m, currency, tenor, t, preferProjection) == Hat(Years(c.nodes), i, t)
    ensures (forall i :: 0 <= i < |c.nodes| ==> c.nodes[i].tenor != tenor) ==> TentAt(m, currency, tenor, t, preferProjection) == 0.0
    ensures TenorToYears(tenor).None? ==> TentAt(m, currency, tenor, t, preferProjection) == 0.0
  {
    SelectValid(m, currency, preferProjection);
    var zeros := SelectedZeros(m, currency, preferProjection, c);
    TentIs(c.nodes, tenor, t);
    assert TenorToYears(tenor).None? ==> forall i :: 0 <= i < |c.nodes| ==> c.nodes[i].tenor != tenor;
  }

  lemma UnparsedHasNoTent(m: Marks, currency: string, tenor: string, t: real, preferProjection: bool)
    requires TenorToYears(tenor).None?
    ensures TentAt(m, currency, tenor, t, preferProjection) == 0.0
  {
    var selected := Select(m, currency, preferProjection);
    if selected.Ok? && selected.value.Some? && Reaches(m, currency) {
      TentAtIs(m, currency, tenor, t, preferProjection, selected.value.value);
    }
  }

  /** A marked tenor that does not parse can be shocked, and moves nothing. */
  lemma UnparsedTenorMovesNothing(m: Marks, currency: string, tenor: string, t: real, preferProjection: bool, a: real)
    requires TenorToYears(tenor).None?
    ensures RequiredZero(ShiftRates(m, currency, Some(tenor), a), currency, t, preferProjection) == RequiredZero(m, currency, t, preferProjection)
  {
    var h := TentAt(m, currency, tenor, t, preferProjection);
    UnparsedHasNoTent(m, currency, tenor, t, preferProjection);
    TenorShockMovesZero(m, currency, tenor, t, preferProjection, a, h);
    StaysPut(RequiredZero(m, currency, t, preferProjection), a, h);
  }

  // ----- every tenor in turn -----

  function TenorsOf(nodes: seq<CurveNode>): (r: seq<string>)
    ensures |r| == |nodes|
  {
    seq(|nodes|, i requires 0 <= i < |nodes| => nodes[i].tenor)
  }

  function ShiftEach(m: Marks, currency: string, tenors: seq<string>, a: real): Marks
    decreases |tenors|
  {
    if tenors == [] then m else ShiftEach(ShiftRates(m, currency, Some(tenors[0]), a), currency, tenors[1..], a)
  }

  /** The curve with its first j nodes moved. */
  function FirstMoved(c: YieldCurve, j: nat, a: real): YieldCurve {
    c.(nodes := seq(|c.nodes|, i requires 0 <= i < |c.nodes| => if i < j then ShiftNode(c.nodes[i], None, a) else c.nodes[i]))
  }

  lemma NextMoved(c: YieldCurve, j: nat, a: real)
    requires DistinctTenors(c.nodes) && j < |c.nodes|
    ensures ShiftedCurve(FirstMoved(c, j, a), Some(c.nodes[j].tenor), a) == FirstMoved(c, j + 1, a)
  {
    assert ShiftedCurve(FirstMoved(c, j, a), Some(c.nodes[j].tenor), a).nodes == FirstMoved(c, j + 1, a).nodes;
  }

  lemma {:induction false} EachMoves(m: Marks, currency: string, preferProjection: bool, c: YieldCurve, j: nat, a: real)
    requires DistinctTenors(c.nodes) && j <= |c.nodes| && Reaches(m, currency)
    requires Select(m, currency, preferProjection) == Ok(Some(FirstMoved(c, j, a)))
    ensures Select(ShiftEach(m, currency, TenorsOf(c.nodes)[j..], a), currency, preferProjection) == Ok(Some(FirstMoved(c, |c.nodes|, a)))
    decreases |c.nodes| - j
  {
    var tenors := TenorsOf(c.nodes)[j..];
    if j < |c.nodes| {
      var next := ShiftRates(m, currency, Some(tenors[0]), a);
      assert tenors[0] == c.nodes[j].tenor && tenors[1..] == TenorsOf(c.nodes)[j + 1..];
      SelectShifted(m, currency, preferProjection, Some(tenors[0]), a);
      ReachKept(m, currency, Some(tenors[0]), a);
      NextMoved(c, j, a);
      EachMoves(next, currency, preferProjection, c, j + 1, a);
    }
  }

  lemma ResolveParallel(c: YieldCurve, scalar: Option<real>, other: Option<real>, t: real, a: real)
    requires ValidNodes(c.nodes)
    ensures ValidNodes(FirstMoved(c, |c.nodes|, a).nodes)
    ensures Required(Resolve(Ok(Some(FirstMoved(c, |c.nodes|, a))), other, t)) == MovedBy(Required(Resolve(Ok(Some(c)), scalar, t)), a)
  {
    assert FirstMoved(c, |c.nodes|, a).nodes == ShiftNodes(c.nodes, None, a);
    ShiftAllMoves(c.nodes, a, t);
  }

  lemma EveryTenorMoves(m: Marks, currency: string, t: real, preferProjection: bool, a: real, c: YieldCurve)
    requires Select(m, currency, preferProjection) == Ok(Some(c)) && Reaches(m, currency)
    ensures RequiredZero(ShiftEach(m, currency, TenorsOf(c.nodes), a), currency, t, preferProjection)
         == MovedBy(RequiredZero(m, currency, t, preferProjection), a)
  {
    var all := ShiftEach(m, currency, TenorsOf(c.nodes), a);
    var zeros := SelectedZeros(m, currency, preferProjection, c);
    SelectValid(m, currency, preferProjection);
    SelectValid(all, currency, preferProjection);
    assert FirstMoved(c, 0, a) == c && TenorsOf(c.nodes)[0..] == TenorsOf(c.nodes);
    EachMoves(m, currency, preferProjection, c, 0, a);
    ResolveParallel(c, Scalar(m, currency, preferProjection), Scalar(all, currency, preferProjection), t, a);
  }

  // ----- as shocks of the snapshot -----

  function TenorShocks(currency: string, tenors: seq<string>, a: real): (r: seq<Shock>)
    ensures |r| == |tenors|
  {
    seq(|tenors|, i requires 0 <= i < |tenors| => Shock(RateZero(currency, tenors[i]), a))
  }

  lemma {:induction false} ShocksApply(m: Marks, currency: string, tenors: seq<string>, a: real)
    requires forall i :: 0 <= i < |tenors| ==> HasTenor(m, currency, tenors[i]) && TenorOf(tenors[i]) == Some(tenors[i])
    ensures ApplyMarks(m, TenorShocks(currency, tenors, a)) == Ok(ShiftEach(m, currency, tenors, a))
    decreases |tenors|
  {
    if tenors != [] {
      var shocks, next := TenorShocks(currency, tenors, a), ShiftRates(m, currency, Some(tenors[0]), a);
      assert shocks[1..] == TenorShocks(currency, tenors[1..], a);
      assert ApplyOne(m, shocks[0]) == Ok(next);
      forall i | 0 <= i < |tenors[1..]|
        ensures HasTenor(next, currency, tenors[1..][i])
      {
        ShiftKeepsTenors(m, currency, Some(tenors[0]), a, currency, tenors[i + 1]);
      }
      ShocksApply(next, currency, tenors[1..], a);
    }
  }

  lemma NoUnit(tenor: string)
    requires var key := Upper(Strip(tenor)); |key| >= 2 && key[|key| - 1] == 'L'
    ensures TenorToYears(tenor).None?
  {
    var key := Upper(Strip(tenor));
    assert forall k :: k in TENOR_YEARS ==> k[|k| - 1] == 'Y';
    assert key !in TENOR_YEARS;
  }

  lemma NothingToStrip(s: string)
    requires s != [] && !IsSpace(s[0]) && !IsSpace(s[|s| - 1])
    ensures Strip(s) == s
  {
  }

  lemma ParallelDoesNotParse(tenor: string)
    requires tenor in PARALLEL_TENORS
    ensures TenorToYears(tenor).None?
  {
    assert tenor == "ALL" || tenor == "PARALLEL";
    NothingToStrip(tenor);
    assert Upper(tenor)[|tenor| - 1] == 'L';
    NoUnit(tenor);
  }

  /**
   * Shocking every tenor of the selected curve in turn goes through, and moves the resolved zero by exactly the shock at
   * every maturity, as one parallel shock does.
   */
  lemma EveryTenorIsParallel(m: Marks, currency: string, t: real, preferProjection: bool, a: real, c: YieldCurve)
    requires Select(m, currency, preferProjection) == Ok(Some(c)) && Reaches(m, currency)
    ensures var r := ApplyMarks(m, TenorShocks(currency, TenorsOf(c.nodes), a));
      && r.Ok?
      && RequiredZero(r.value, currency, t, preferProjection) == MovedBy(RequiredZero(m, currency, t, preferProjection), a)
      && (currency in m.rates ==>
            RequiredZero(r.value, currency, t, preferProjection) == RequiredZero(ShiftRates(m, currency, None, a), currency, t, preferProjection))
  {
    var zeros := SelectedZeros(m, currency, preferProjection, c);
    var tenors := TenorsOf(c.nodes);
    forall i | 0 <= i < |tenors|
      ensures HasTenor(m, currency, tenors[i]) && TenorOf(tenors[i]) == Some(tenors[i])
    {
      assert IsPillar(c.nodes[i], zeros);
      if tenors[i] in PARALLEL_TENORS {
        ParallelDoesNotParse(tenors[i]);
      }
    }
    ShocksApply(m, currency, tenors, a);
    EveryTenorMoves(m, currency, t, preferProjection, a, c);
    if currency in m.rates {
      ParallelShockMovesZero(m, currency, t, preferProjection, a);
    }
  }
}
