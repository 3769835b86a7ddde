/**
 * Resolving a zero rate: a named curve, key rates rebuilt as a curve, or a scalar (pricing/curve_rates.py).
 */
module CurveRates {
  import opened Wrappers
  import opened Strings
  import opened RealMath
  import opened Vectors
  import opened SortedSets
  import opened Curves
  import opened Snapshots

  // ----- a curve from a payload -----

  predicate Earlier(a: CurveNode, b: CurveNode) {
    a.years < b.years
  }

  /** A node for every tenor that parses; the others are skipped. */
  function PillarNodes(zeros: map<string, real>): set<CurveNode> {
    set t | t in zeros && TenorToYears(t).Some? :: CurveNode(t, TenorToYears(t).value, zeros[t])
  }

  ghost predicate DistinctYears(nodes: set<CurveNode>) {
    forall a, b :: a in nodes && b in nodes && a != b ==> a.years != b.years
  }

  lemma NodesOrdered(nodes: set<CurveNode>)
    requires DistinctYears(nodes)
    ensures StrictOrder(Earlier, nodes)
  {
  }

  /** sorted(nodes, key=years), when no two share a maturity. */
  ghost function InOrder(nodes: set<CurveNode>): seq<CurveNode>
    requires DistinctYears(nodes)
  {
    NodesOrdered(nodes);
    Sorted(Earlier, nodes)
  }

  lemma InOrderLists(nodes: set<CurveNode>)
    requires DistinctYears(nodes)
    ensures |InOrder(nodes)| == |nodes| && Ascending(Earlier, InOrder(nodes))
    ensures forall n :: n in InOrder(nodes) <==> n in nodes
  {
    NodesOrdered(nodes);
    SortedLists(Earlier, nodes);
  }

  lemma AscendingIsIncreasing(nodes: seq<CurveNode>)
    requires Ascending(Earlier, nodes)
    ensures Increasing(Years(nodes))
  {
    forall i, j | 0 <= i < j < |nodes|
      ensures Years(nodes)[i] < Years(nodes)[j]
    {
      assert Earlier(nodes[i], nodes[j]);
    }
  }

  lemma InOrderValid(nodes: set<CurveNode>)
    requires DistinctYears(nodes) && nodes != {}
    ensures ValidNodes(InOrder(nodes))
  {
    InOrderLists(nodes);
    AscendingIsIncreasing(InOrder(nodes));
    var n :| n in nodes;
    assert n in InOrder(nodes);
  }

  function TypeOf(p: CurvePayload): CurveType {
    if p.curveType == "projection" then Projection else Discount
  }

  function CurveOf(key: string, p: CurvePayload, nodes: seq<CurveNode>): YieldCurve {
    YieldCurve(p.currency, TypeOf(p), if p.name == "" then key else p.name, nodes)
  }

  /** No curve without a node; two nodes of the same maturity raise. */
  ghost function BuildCurve(key: string, p: CurvePayload): (r: Result<Option<YieldCurve>, string>)
    ensures r.Ok? && r.value.Some? ==> ValidNodes(r.value.value.nodes)
  {
    var nodes := PillarNodes(p.zeros);
    if nodes == {} then Ok(None)
    else if !DistinctYears(nodes) then Err("curve nodes must be strictly increasing in years")
    else
      InOrderValid(nodes);
      Ok(Some(CurveOf(key, p, InOrder(nodes))))
  }

  predicate IsEarliest(nodes: set<CurveNode>, n: CurveNode) {
    n in nodes && forall x :: x in nodes ==> n.years <= x.years
  }

  lemma OrderStep(nodes: set<CurveNode>, n: CurveNode)
    requires DistinctYears(nodes) && IsEarliest(nodes, n)
    ensures InOrder(nodes) == [n] + InOrder(nodes - {n})
  {
    NodesOrdered(nodes);
    NodesOrdered(nodes - {n});
    assert IsLeast(Earlier, nodes, n);
    var m := Least(Earlier, nodes);
    assert m == n;
  }

  lemma EarliestNode(nodes: set<CurveNode>)
    requires nodes != {}
    ensures exists n :: IsEarliest(nodes, n)
  {
    var n :| n in nodes;
    var rest := nodes - {n};
    if rest == {} {
      assert nodes == {n};
      assert IsEarliest(nodes, n);
    } else {
      EarliestNode(rest);
      var u :| IsEarliest(rest, u);
      assert IsEarliest(nodes, if n.years <= u.years then n else u);
    }
  }

  /** curve_from_payload: keep the tenors that parse, sort the nodes by years, and let the curve check them. */
  method CurveFromPayload(key: string, p: CurvePayload) returns (r: Result<Option<YieldCurve>, string>)
    ensures r == BuildCurve(key, p)
  {
    var nodes := ParsedNodes(p.zeros);
    if nodes == {} {
      return Ok(None);
    }
    var ordered := SortedNodes(nodes);
    if !Increasing(Years(ordered)) {
      return Err("curve nodes must be strictly increasing in years");
    }
    r := Ok(Some(CurveOf(key, p, ordered)));
  }

  method ParsedNodes(zeros: map<string, real>) returns (nodes: set<CurveNode>)
    ensures nodes == PillarNodes(zeros)
  {
    nodes := {};
    var items := zeros.Keys;
    while items != {}
      invariant items <= zeros.Keys
      invariant forall t :: t in zeros && t !in items && TenorToYears(t).Some? ==>
        CurveNode(t, TenorToYears(t).value, zeros[t]) in nodes
      invariant nodes <= PillarNodes(zeros)
    {
      var t :| t in items;
      items := items - {t};
      var years := TenorToYears(t);
      if years.Some? {
        nodes := nodes + {CurveNode(t, years.value, zeros[t])};
      }
    }
  }

  method SortedNodes(nodes: set<CurveNode>) returns (ordered: seq<CurveNode>)
    ensures DistinctYears(nodes) ==> ordered == InOrder(nodes)
    ensures Increasing(Years(ordered)) ==> DistinctYears(nodes)
  {
    ordered := [];
    var rest := nodes;
    while rest != {}
      invariant rest <= nodes
      invariant forall n :: n in nodes ==> n in rest || n in ordered
      invariant DistinctYears(nodes) ==> ordered + InOrder(rest) == InOrder(nodes)
    {
      EarliestNode(rest);
      var n :| n in rest && IsEarliest(rest, n);
      if DistinctYears(nodes) {
        OrderStep(rest, n);
      }
      ordered := ordered + [n];
      rest := rest - {n};
    }
    if Increasing(Years(ordered)) {
      IncreasingIsDistinct(ordered, nodes);
    }
  }

  lemma IncreasingIsDistinct(ordered: seq<CurveNode>, nodes: set<CurveNode>)
    requires Increasing(Years(ordered)) && forall n :: n in nodes ==> n in ordered
    ensures DistinctYears(nodes)
  {
    forall a, b | a in nodes && b in nodes && a != b
      ensures a.years != b.years
    {
      var i :| 0 <= i < |ordered| && ordered[i] == a;
      var j :| 0 <= j < |ordered| && ordered[j] == b;
      assert Years(ordered)[i] == a.years && Years(ordered)[j] == b.years;
    }
  }

  // ----- selection -----

  /** The curves of a currency, in dictionary order; one that cannot be built raises. */
  ghost function Candidates(curves: seq<NamedCurve>, currency: string): Result<seq<YieldCurve>, string> {
    if curves == [] then Ok([])
    else WithCandidate(Candidates(curves[..|curves| - 1], currency), curves[|curves| - 1], currency)
  }

  function AddBuilt(rest: Result<seq<YieldCurve>, string>, built: Result<Option<YieldCurve>, string>): Result<seq<YieldCurve>, string> {
    if rest.Err? then rest
    else match built
      case Err(e) => Err(e)
      case Ok(None) => rest
      case Ok(Some(curve)) => Ok(rest.value + [curve])
  }

  ghost function WithCandidate(rest: Result<seq<YieldCurve>, string>, c: NamedCurve, currency: string): Result<seq<YieldCurve>, string> {
    if MatchesCurrency(c.payload, currency) then AddBuilt(rest, BuildCurve(c.key, c.payload)) else rest
  }

  lemma {:induction false} CandidatesValid(curves: seq<NamedCurve>, currency: string)
    ensures Candidates(curves, currency).Ok? ==> forall c :: c in Candidates(curves, currency).value ==> ValidNodes(c.nodes)
  {
    if curves != [] {
      CandidatesValid(curves[..|curves| - 1], currency);
    }
  }

  function FirstOf(curves: seq<YieldCurve>, t: CurveType): Option<YieldCurve> {
    if curves == [] then None
    else if curves[0].curveType == t then Some(curves[0])
    else FirstOf(curves[1..], t)
  }

  /** The preferred curve: a projection curve if asked for, then a discount curve, then any. */
  function Preferred(curves: seq<YieldCurve>, preferProjection: bool): Option<YieldCurve> {
    if preferProjection && FirstOf(curves, Projection).Some? then FirstOf(curves, Projection)
    else if FirstOf(curves, Discount).Some? then FirstOf(curves, Discount)
    else if curves != [] then Some(curves[0])
    else None
  }

  lemma {:induction false} FirstIsOne(curves: seq<YieldCurve>, t: CurveType)
    ensures FirstOf(curves, t).Some? ==> FirstOf(curves, t).value in curves && FirstOf(curves, t).value.curveType == t
    ensures FirstOf(curves, t).None? ==> forall c :: c in curves ==> c.curveType != t
  {
    if curves != [] {
      FirstIsOne(curves[1..], t);
    }
  }

  /** Where the key rates of a currency are kept: under the name as given, else in upper case; empty ones do not count. */
  function KeyRateKey(keyRates: map<string, map<string, real>>, currency: string): Option<string> {
    if currency in keyRates && keyRates[currency] != map[] then Some(currency)
    else if Upper(currency) in keyRates && keyRates[Upper(currency)] != map[] then Some(Upper(currency))
    else None
  }

  function KeyRatePayload(currency: string, zeros: map<string, real>): CurvePayload {
    CurvePayload(Upper(currency), "discount", Upper(currency) + "_KEY", zeros)
  }

  ghost function FromKeyRates(keyRates: map<string, map<string, real>>, currency: string): (r: Result<Option<YieldCurve>, string>)
    ensures r.Ok? && r.value.Some? ==> ValidNodes(r.value.value.nodes)
  {
    match KeyRateKey(keyRates, currency)
    case None => Ok(None)
    case Some(k) => BuildCurve(Upper(currency) + "_KEY", KeyRatePayload(currency, keyRates[k]))
  }

  /** Key rates count only when no named curve does. */
  function PickCurve(candidates: Result<seq<YieldCurve>, string>, fromKeyRates: Result<Option<YieldCurve>, string>, preferProjection: bool): Result<Option<YieldCurve>, string> {
    match candidates
    case Err(e) => Err(e)
    case Ok(curves) => if curves == [] then fromKeyRates else Ok(Preferred(curves, preferProjection))
  }

  /** _select_yield_curve_uncached. */
  ghost function Select(m: Marks, currency: string, preferProjection: bool): Result<Option<YieldCurve>, string> {
    PickCurve(Candidates(m.curves, currency), FromKeyRates(m.keyRates, currency), preferProjection)
  }

  lemma SelectValid(m: Marks, currency: string, preferProjection: bool)
    ensures var r := Select(m, currency, preferProjection); r.Ok? && r.value.Some? ==> ValidNodes(r.value.value.nodes)
  {
    var candidates := Candidates(m.curves, currency);
    CandidatesValid(m.curves, currency);
    if candidates.Ok? {
      PreferredIsOne(candidates.value, preferProjection);
    }
  }

  lemma PreferredIsOne(curves: seq<YieldCurve>, preferProjection: bool)
    ensures Preferred(curves, preferProjection).Some? <==> curves != []
    ensures curves != [] ==> Preferred(curves, preferProjection).value in curves
  {
    FirstIsOne(curves, Projection);
    FirstIsOne(curves, Discount);
  }

  method SelectUncached(m: Marks, currency: string, preferProjection: bool) returns (r: Result<Option<YieldCurve>, string>)
    ensures r == Select(m, currency, preferProjection)
  {
    var candidates: seq<YieldCurve> := [];
    for i := 0 to |m.curves|
      invariant Candidates(m.curves[..i], currency) == Ok(candidates)
    {
      var c := m.curves[i];
      CandidatesStep(m.curves, i, currency);
      if MatchesCurrency(c.payload, currency) {
        var curve := CurveFromPayload(c.key, c.payload);
        if curve.Err? {
          FailureSpreads(m.curves, i + 1, currency);
          return Err(curve.error);
        }
        if curve.value.Some? {
          candidates := candidates + [curve.value.value];
        }
      }
    }
    assert m.curves[..|m.curves|] == m.curves;
    if candidates != [] {
      return Ok(Preferred(candidates, preferProjection));
    }
    var key := KeyRateKey(m.keyRates, currency);
    if key.None? {
      return Ok(None);
    }
    r := CurveFromPayload(Upper(currency) + "_KEY", KeyRatePayload(currency, m.keyRates[key.value]));
  }

  lemma CandidatesStep(curves: seq<NamedCurve>, i: nat, currency: string)
    requires i < |curves|
    ensures Candidates(curves[..i + 1], currency) == WithCandidate(Candidates(curves[..i], currency), curves[i], currency)
  {
    assert curves[..i + 1][..i] == curves[..i];
  }

  lemma {:induction false} FailureSpreads(curves: seq<NamedCurve>, i: nat, currency: string)
    requires i <= |curves| && Candidates(curves[..i], currency).Err?
    ensures Candidates(curves, currency) == Candidates(curves[..i], currency)
    decreases |curves|
  {
    if i < |curves| {
      var rest := curves[..|curves| - 1];
      assert rest[..i] == curves[..i];
      FailureSpreads(rest, i, currency);
    } else {
      assert curves[..i] == curves;
    }
  }

  // ----- resolution -----

  /** The scalar fallback. */
  function Scalar(m: Marks, currency: string, preferProjection: bool): Option<real> {
    if preferProjection && currency in m.projectionRates then Some(m.projectionRates[currency])
    else if currency in m.rates then Some(m.rates[currency])
    else None
  }

  predicate ValidCurve(r: Result<Option<YieldCurve>, string>) {
    r.Ok? && r.value.Some? ==> ValidNodes(r.value.value.nodes)
  }

  function Resolve(selected: Result<Option<YieldCurve>, string>, scalar: Option<real>, t: real): Result<Option<real>, string>
    requires ValidCurve(selected)
  {
    match selected
    case Err(e) => Err(e)
    case Ok(Some(curve)) => (match ZeroAt(curve, t) case Err(e) => Err(e) case Ok(z) => Ok(Some(z)))
    case Ok(None) => Ok(scalar)
  }

  /** _snapshot_zero. */
  ghost function SnapshotZero(m: Marks, currency: string, t: real, preferProjection: bool): Result<Option<real>, string> {
    SelectValid(m, currency, preferProjection);
    Resolve(Select(m, currency, preferProjection), Scalar(m, currency, preferProjection), t)
  }

  function Required(r: Result<Option<real>, string>): Result<real, string> {
    match r
    case Err(e) => Err(e)
    case Ok(None) => Err("missing market data")
    case Ok(Some(z)) => Ok(z)
  }

  /** required_continuous_zero. */
  ghost function RequiredZero(m: Marks, currency: string, t: real, preferProjection: bool): Result<real, string> {
    Required(SnapshotZero(m, currency, t, preferProjection))
  }

  /** discount_factor: None keeps the scalar path. */
  ghost function DiscountFactor(m: Marks, currency: string, t: real, exp: real -> real): Result<Option<real>, string> {
    SelectValid(m, currency, false);
    match Select(m, currency, false)
    case Err(e) => Err(e)
    case Ok(None) => Ok(None)
    case Ok(Some(curve)) => (match DiscountAt(curve, t, exp) case Err(e) => Err(e) case Ok(df) => Ok(Some(df)))
  }

  /** Which of the fallbacks answers; key rates remember the name they were found under. */
  datatype Path = FromCurve | FromRates(key: string) | FromProjection | FromScalar | Nowhere

  ghost function PathOf(m: Marks, currency: string, preferProjection: bool): Path {
    var candidates := Candidates(m.curves, currency);
    if candidates.Ok? && candidates.value != [] then FromCurve
    else if Select(m, currency, preferProjection) != Ok(None) then FromRates(KeyRateKey(m.keyRates, currency).GetOr(currency))
    else if preferProjection && currency in m.projectionRates then FromProjection
    else if currency in m.rates then FromScalar
    else Nowhere
  }

  // ----- a rate shock, parallel or of one tenor -----

  function ShiftedCurve(c: YieldCurve, tenor: Option<string>, a: real): YieldCurve {
    c.(nodes := ShiftNodes(c.nodes, tenor, a))
  }

  function ShiftedBuilt(r: Result<Option<YieldCurve>, string>, tenor: Option<string>, a: real): Result<Option<YieldCurve>, string> {
    if r.Ok? && r.value.Some? then Ok(Some(ShiftedCurve(r.value.value, tenor, a))) else r
  }

  predicate IsPillar(n: CurveNode, zeros: map<string, real>) {
    n.tenor in zeros && TenorToYears(n.tenor) == Some(n.years) && n.zeroRate == zeros[n.tenor]
  }

  lemma PillarsAre(zeros: map<string, real>)
    ensures forall n :: n in PillarNodes(zeros) <==> IsPillar(n, zeros)
  {
  }

  lemma PillarShifted(n: CurveNode, zeros: map<string, real>, tenor: Option<string>, a: real)
    ensures IsPillar(n, zeros) ==> IsPillar(ShiftNode(n, tenor, a), BumpZeros(zeros, tenor, a))
    ensures IsPillar(n, BumpZeros(zeros, tenor, a)) ==> IsPillar(ShiftNode(n, tenor, -a), zeros)
  {
  }

  function ShiftedSet(nodes: set<CurveNode>, tenor: Option<string>, a: real): set<CurveNode> {
    set n | n in nodes :: ShiftNode(n, tenor, a)
  }

  lemma PillarsShifted(zeros: map<string, real>, tenor: Option<string>, a: real)
    ensures PillarNodes(BumpZeros(zeros, tenor, a)) == ShiftedSet(PillarNodes(zeros), tenor, a)
  {
    PillarsAre(zeros);
    PillarsAre(BumpZeros(zeros, tenor, a));
    forall n | n in PillarNodes(zeros)
      ensures ShiftNode(n, tenor, a) in PillarNodes(BumpZeros(zeros, tenor, a))
    {
      PillarShifted(n, zeros, tenor, a);
    }
    forall n | n in PillarNodes(BumpZeros(zeros, tenor, a))
      ensures n in ShiftedSet(PillarNodes(zeros), tenor, a)
    {
      PillarShifted(n, zeros, tenor, a);
      ShiftBack(n, tenor, a);
      assert ShiftNode(n, tenor, -a) in PillarNodes(zeros);
    }
  }

  lemma ShiftBack(n: CurveNode, tenor: Option<string>, a: real)
    ensures ShiftNode(ShiftNode(n, tenor, a), tenor, -a) == n && ShiftNode(ShiftNode(n, tenor, -a), tenor, a) == n
  {
  }

  lemma ShiftInjective(x: CurveNode, y: CurveNode, tenor: Option<string>, a: real)
    requires ShiftNode(x, tenor, a) == ShiftNode(y, tenor, a)
    ensures x == y
  {
    ShiftBack(x, tenor, a);
    ShiftBack(y, tenor, a);
  }

  lemma ShiftKeepsDistinct(nodes: set<CurveNode>, tenor: Option<string>, a: real)
    ensures DistinctYears(ShiftedSet(nodes, tenor, a)) <==> DistinctYears(nodes)
  {
    if DistinctYears(ShiftedSet(nodes, tenor, a)) {
      forall x, y | x in nodes && y in nodes && x != y
        ensures x.years != y.years
      {
        assert ShiftNode(x, tenor, a) in ShiftedSet(nodes, tenor, a) && ShiftNode(y, tenor, a) in ShiftedSet(nodes, tenor, a);
        if ShiftNode(x, tenor, a) == ShiftNode(y, tenor, a) {
          ShiftInjective(x, y, tenor, a);
        }
      }
    }
  }

  lemma ShiftLists(nodes: set<CurveNode>, tenor: Option<string>, a: real, s: seq<CurveNode>)
    requires forall n :: n in s <==> n in nodes
    ensures forall n :: n in ShiftNodes(s, tenor, a) <==> n in ShiftedSet(nodes, tenor, a)
  {
    var t := ShiftNodes(s, tenor, a);
    forall n | n in t
      ensures n in ShiftedSet(nodes, tenor, a)
    {
      var i :| 0 <= i < |t| && t[i] == n;
      assert s[i] in nodes && n == ShiftNode(s[i], tenor, a);
    }
    forall n | n in ShiftedSet(nodes, tenor, a)
      ensures n in t
    {
      var m :| m in nodes && n == ShiftNode(m, tenor, a);
      var i :| 0 <= i < |s| && s[i] == m;
      assert t[i] == n;
    }
  }

  lemma ShiftAscends(s: seq<CurveNode>, tenor: Option<string>, a: real)
    requires Ascending(Earlier, s)
    ensures Ascending(Earlier, ShiftNodes(s, tenor, a))
  {
    forall i, j | 0 <= i < j < |s|
      ensures Earlier(ShiftNodes(s, tenor, a)[i], ShiftNodes(s, tenor, a)[j])
    {
      assert Earlier(s[i], s[j]);
    }
  }

  lemma OrderShifted(nodes: set<CurveNode>, tenor: Option<string>, a: real)
    requires DistinctYears(nodes) && DistinctYears(ShiftedSet(nodes, tenor, a))
    ensures InOrder(ShiftedSet(nodes, tenor, a)) == ShiftNodes(InOrder(nodes), tenor, a)
  {
    var s := InOrder(nodes);
    InOrderLists(nodes);
    ShiftLists(nodes, tenor, a, s);
    ShiftAscends(s, tenor, a);
    NodesOrdered(ShiftedSet(nodes, tenor, a));
    SortedUnique(Earlier, ShiftedSet(nodes, tenor, a), ShiftNodes(s, tenor, a));
  }

  lemma ShiftKeepsEmpty(nodes: set<CurveNode>, tenor: Option<string>, a: real)
    ensures ShiftedSet(nodes, tenor, a) == {} <==> nodes == {}
  {
    if n :| n in nodes {
      assert ShiftNode(n, tenor, a) in ShiftedSet(nodes, tenor, a);
    }
  }

  lemma NamedAlike(key: string, p: CurvePayload, tenor: Option<string>, a: real, nodes: seq<CurveNode>)
    ensures CurveOf(key, p.(zeros := BumpZeros(p.zeros, tenor, a)), ShiftNodes(nodes, tenor, a)) == ShiftedCurve(CurveOf(key, p, nodes), tenor, a)
  {
  }

  lemma BuildShifted(key: string, p: CurvePayload, tenor: Option<string>, a: real)
    ensures BuildCurve(key, p.(zeros := BumpZeros(p.zeros, tenor, a))) == ShiftedBuilt(BuildCurve(key, p), tenor, a)
  {
    var nodes := PillarNodes(p.zeros);
    PillarsShifted(p.zeros, tenor, a);
    ShiftKeepsEmpty(nodes, tenor, a);
    ShiftKeepsDistinct(nodes, tenor, a);
    if DistinctYears(nodes) {
      OrderShifted(nodes, tenor, a);
      NamedAlike(key, p, tenor, a, InOrder(nodes));
    }
  }

  function ShiftedCurves(curves: seq<YieldCurve>, tenor: Option<string>, a: real): (r: seq<YieldCurve>)
    ensures |r| == |curves|
  {
    seq(|curves|, i requires 0 <= i < |curves| => ShiftedCurve(curves[i], tenor, a))
  }

  function ShiftedCandidates(r: Result<seq<YieldCurve>, string>, tenor: Option<string>, a: real): Result<seq<YieldCurve>, string> {
    if r.Ok? then Ok(ShiftedCurves(r.value, tenor, a)) else r
  }

  lemma AddShifted(rest: Result<seq<YieldCurve>, string>, built: Result<Option<YieldCurve>, string>, tenor: Option<string>, a: real)
    ensures AddBuilt(ShiftedCandidates(rest, tenor, a), ShiftedBuilt(built, tenor, a)) == ShiftedCandidates(AddBuilt(rest, built), tenor, a)
  {
    if rest.Ok? && built.Ok? && built.value.Some? {
      assert ShiftedCurves(rest.value + [built.value.value], tenor, a) == ShiftedCurves(rest.value, tenor, a) + [ShiftedCurve(built.value.value, tenor, a)];
    }
  }

  lemma CandidateShifted(rest: Result<seq<YieldCurve>, string>, c: NamedCurve, currency: string, tenor: Option<string>, a: real)
    ensures WithCandidate(ShiftedCandidates(rest, tenor, a), BumpCurve(c, currency, tenor, a), currency)
         == ShiftedCandidates(WithCandidate(rest, c, currency), tenor, a)
  {
    if MatchesCurrency(c.payload, currency) {
      BuildShifted(c.key, c.payload, tenor, a);
      AddShifted(rest, BuildCurve(c.key, c.payload), tenor, a);
    }
  }

  lemma {:induction false} CandidatesShifted(curves: seq<NamedCurve>, currency: string, tenor: Option<string>, a: real)
    ensures Candidates(BumpCurves(curves, currency, tenor, a), currency) == ShiftedCandidates(Candidates(curves, currency), tenor, a)
  {
    if curves == [] {
      assert ShiftedCurves([], tenor, a) == [];
    } else {
      var rest, c := curves[..|curves| - 1], curves[|curves| - 1];
      CandidatesShifted(rest, currency, tenor, a);
      CandidateShifted(Candidates(rest, currency), c, currency, tenor, a);
      BumpSplit(curves, currency, tenor, a);
    }
  }

  lemma BumpSplit(curves: seq<NamedCurve>, currency: string, tenor: Option<string>, a: real)
    requires curves != []
    ensures var bumped, n := BumpCurves(curves, currency, tenor, a), |curves| - 1;
      bumped[..n] == BumpCurves(curves[..n], currency, tenor, a) && bumped[n] == BumpCurve(curves[n], currency, tenor, a)
  {
  }

  lemma {:induction false} FirstShifted(curves: seq<YieldCurve>, t: CurveType, tenor: Option<string>, a: real)
    ensures FirstOf(ShiftedCurves(curves, tenor, a), t)
      == if FirstOf(curves, t).Some? then Some(ShiftedCurve(FirstOf(curves, t).value, tenor, a)) else None
  {
    if curves != [] {
      assert ShiftedCurves(curves, tenor, a)[1..] == ShiftedCurves(curves[1..], tenor, a);
      FirstShifted(curves[1..], t, tenor, a);
    }
  }

  lemma PreferredShifted(curves: seq<YieldCurve>, preferProjection: bool, tenor: Option<string>, a: real)
    requires curves != []
    ensures Preferred(curves, preferProjection).Some?
    ensures Preferred(ShiftedCurves(curves, tenor, a), preferProjection) == Some(ShiftedCurve(Preferred(curves, preferProjection).value, tenor, a))
  {
    FirstShifted(curves, Projection, tenor, a);
    FirstShifted(curves, Discount, tenor, a);
  }

  lemma KeyRateKeyShifted(keyRates: map<string, map<string, real>>, currency: string, tenor: Option<string>, a: real)
    ensures KeyRateKey(BumpKeyRates(keyRates, currency, tenor, a), currency) == KeyRateKey(keyRates, currency)
  {
    if currency in keyRates {
      var z := keyRates[currency];
      assert BumpZeros(z, tenor, a).Keys == z.Keys;
      assert BumpZeros(z, tenor, a) == map[] <==> z == map[];
    }
  }

  lemma KeyRatesShifted(keyRates: map<string, map<string, real>>, currency: string, tenor: Option<string>, a: real)
    ensures FromKeyRates(BumpKeyRates(keyRates, currency, tenor, a), currency)
      == if KeyRateKey(keyRates, currency) == Some(currency) then ShiftedBuilt(FromKeyRates(keyRates, currency), tenor, a)
         else FromKeyRates(keyRates, currency)
  {
    KeyRateKeyShifted(keyRates, currency, tenor, a);
    if KeyRateKey(keyRates, currency) == Some(currency) {
      BuildShifted(Upper(currency) + "_KEY", KeyRatePayload(currency, keyRates[currency]), tenor, a);
    }
  }

  /** Picking among shifted candidates, with key rates that moved or did not. */
  lemma PickShifted(candidates: Result<seq<YieldCurve>, string>, keyed: Result<Option<YieldCurve>, string>, keyed': Result<Option<YieldCurve>, string>,
                    preferProjection: bool, tenor: Option<string>, a: real)
    ensures PickCurve(ShiftedCandidates(candidates, tenor, a), keyed', preferProjection)
      == if candidates.Ok? && candidates.value == [] then keyed' else ShiftedBuilt(PickCurve(candidates, keyed, preferProjection), tenor, a)
  {
    if candidates.Ok? && candidates.value != [] {
      PreferredShifted(candidates.value, preferProjection, tenor, a);
    }
  }

  /** What the selected curve becomes when its currency is shocked in parallel. */
  lemma SelectShifted(m: Marks, currency: string, preferProjection: bool, tenor: Option<string>, a: real)
    ensures var candidates := Candidates(m.curves, currency);
      Select(ShiftRates(m, currency, tenor, a), currency, preferProjection)
      == if candidates == Ok([]) && KeyRateKey(m.keyRates, currency) != Some(currency) then Select(m, currency, preferProjection)
         else ShiftedBuilt(Select(m, currency, preferProjection), tenor, a)
  {
    CandidatesShifted(m.curves, currency, tenor, a);
    KeyRatesShifted(m.keyRates, currency, tenor, a);
    PickShifted(Candidates(m.curves, currency), FromKeyRates(m.keyRates, currency),
                FromKeyRates(BumpKeyRates(m.keyRates, currency, tenor, a), currency), preferProjection, tenor, a);
  }

  // ----- a parallel shock -----

  lemma ZeroShifted(c: YieldCurve, t: real, a: real)
    requires ValidNodes(c.nodes)
    ensures ValidNodes(ShiftedCurve(c, None, a).nodes)
    ensures ZeroAt(ShiftedCurve(c, None, a), t) == if t < 0.0 then ZeroAt(c, t) else Ok(ZeroAt(c, t).value + a)
  {
    ShiftAllMoves(c.nodes, a, t);
  }

  /** The paths a parallel shock of the currency moves: all but the scalar projection rate and key rates kept under another case. */
  predicate Moves(p: Path, currency: string) {
    p == FromCurve || p == FromRates(currency) || p == FromScalar
  }

  function MovedBy(r: Result<real, string>, d: real): Result<real, string> {
    if r.Ok? then Ok(r.value + d) else r
  }

  lemma ResolveShifted(selected: Result<Option<YieldCurve>, string>, scalar: Option<real>, t: real, a: real)
    requires ValidCurve(selected) && selected != Ok(None)
    ensures ValidCurve(ShiftedBuilt(selected, None, a))
    ensures Required(Resolve(ShiftedBuilt(selected, None, a), scalar, t)) == MovedBy(Required(Resolve(selected, scalar, t)), a)
  {
    if selected.Ok? {
      ZeroShifted(selected.value.value, t, a);
    }
  }

  lemma CurvePathShifted(m: Marks, currency: string, t: real, preferProjection: bool, a: real)
    requires Select(m, currency, preferProjection) != Ok(None)
    ensures var shifted := ShiftRates(m, currency, None, a);
      RequiredZero(shifted, currency, t, preferProjection)
        == MovedBy(RequiredZero(m, currency, t, preferProjection), if Moves(PathOf(m, currency, preferProjection), currency) then a else 0.0)
  {
    var selected, shifted := Select(m, currency, preferProjection), ShiftRates(m, currency, None, a);
    SelectValid(m, currency, preferProjection);
    SelectValid(shifted, currency, preferProjection);
    SelectShifted(m, currency, preferProjection, None, a);
    ResolveShifted(selected, Scalar(shifted, currency, preferProjection), t, a);
  }

  lemma ScalarPathShifted(m: Marks, currency: string, t: real, preferProjection: bool, a: real)
    requires currency in m.rates && Select(m, currency, preferProjection) == Ok(None)
    ensures var shifted := ShiftRates(m, currency, None, a);
      RequiredZero(shifted, currency, t, preferProjection)
        == MovedBy(RequiredZero(m, currency, t, preferProjection), if Moves(PathOf(m, currency, preferProjection), currency) then a else 0.0)
  {
    var shifted := ShiftRates(m, currency, None, a);
    SelectShifted(m, currency, preferProjection, None, a);
    assert Select(shifted, currency, preferProjection) == Ok(None);
    var candidates := Candidates(m.curves, currency);
    assert candidates == Ok([]) by {
      if candidates.Ok? && candidates.value != [] {
        PreferredIsOne(candidates.value, preferProjection);
      }
    }
  }

  /** A parallel shock of a moves the resolved zero by exactly a on those paths, at every maturity, and not at all on the others. */
  lemma ParallelShockMovesZero(m: Marks, currency: string, t: real, preferProjection: bool, a: real)
    requires currency in m.rates
    ensures var shifted := ShiftRates(m, currency, None, a);
      RequiredZero(shifted, currency, t, preferProjection)
        == MovedBy(RequiredZero(m, currency, t, preferProjection), if Moves(PathOf(m, currency, preferProjection), currency) then a else 0.0)
  {
    if Select(m, currency, preferProjection) == Ok(None) {
      ScalarPathShifted(m, currency, t, preferProjection, a);
    } else {
      CurvePathShifted(m, currency, t, preferProjection, a);
    }
  }

  // ----- other currencies -----

  lemma {:induction false} OtherCandidates(curves: seq<NamedCurve>, shocked: string, currency: string, tenor: Option<string>, a: real)
    requires Upper(shocked) != Upper(currency)
    ensures Candidates(BumpCurves(curves, shocked, tenor, a), currency) == Candidates(curves, currency)
  {
    if curves != [] {
      var rest, c := curves[..|curves| - 1], curves[|curves| - 1];
      OtherCandidates(rest, shocked, currency, tenor, a);
      BumpSplit(curves, shocked, tenor, a);
      OtherCandidate(Candidates(rest, currency), c, shocked, currency, tenor, a);
    }
  }

  lemma OtherCandidate(rest: Result<seq<YieldCurve>, string>, c: NamedCurve, shocked: string, currency: string, tenor: Option<string>, a: real)
    requires Upper(shocked) != Upper(currency)
    ensures WithCandidate(rest, BumpCurve(c, shocked, tenor, a), currency) == WithCandidate(rest, c, currency)
  {
    var b := BumpCurve(c, shocked, tenor, a);
    assert b.payload.currency == c.payload.currency;
  }

  lemma OtherKeyRates(keyRates: map<string, map<string, real>>, shocked: string, currency: string, tenor: Option<string>, a: real)
    requires Upper(shocked) != Upper(currency)
    ensures FromKeyRates(BumpKeyRates(keyRates, shocked, tenor, a), currency) == FromKeyRates(keyRates, currency)
  {
    UpperTwice(currency);
    assert shocked != currency && shocked != Upper(currency);
    var bumped := BumpKeyRates(keyRates, shocked, tenor, a);
    assert KeyRateKey(bumped, currency) == KeyRateKey(keyRates, currency);
    if KeyRateKey(keyRates, currency).Some? {
      assert bumped[KeyRateKey(keyRates, currency).value] == keyRates[KeyRateKey(keyRates, currency).value];
    }
  }

  /** No rate shock of one currency is seen by another. */
  lemma OtherCurrenciesStay(m: Marks, shocked: string, currency: string, tenor: Option<string>, a: real, t: real, preferProjection: bool)
    requires Upper(shocked) != Upper(currency)
    ensures RequiredZero(ShiftRates(m, shocked, tenor, a), currency, t, preferProjection) == RequiredZero(m, currency, t, preferProjection)
  {
    OtherCandidates(m.curves, shocked, currency, tenor, a);
    OtherKeyRates(m.keyRates, shocked, currency, tenor, a);
    OtherScalar(m, shocked, currency, tenor, a, preferProjection);
  }

  lemma OtherScalar(m: Marks, shocked: string, currency: string, tenor: Option<string>, a: real, preferProjection: bool)
    requires Upper(shocked) != Upper(currency)
    ensures Scalar(ShiftRates(m, shocked, tenor, a), currency, preferProjection) == Scalar(m, currency, preferProjection)
  {
    assert shocked != currency;
  }
}
