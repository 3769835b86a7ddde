/**
 * Per-trade calculation artifacts and the metrics a hierarchy node gets from their sum
 * (risk/trade_artifacts.py; _sum_artifacts, _stress_from_artifacts, _node_from_artifacts in risk/hierarchy.py).
 */
module Artifacts {
  import opened Wrappers
  import opened Vectors
  import opened HistoricalVar
  import opened HistoricalEngine

  /** A position as far as the hierarchy looks at it. */
  datatype Position = Position(id: string, book: string, desk: Option<string>, strategy: Option<string>)

  datatype StressEntry = StressEntry(scenario: string, pnl: real)

  /** stress_pnl keeps the order of its keys. */
  datatype Artifact = Artifact(numbers: Valuation, stress: seq<StressEntry>, historical: Option<Vec>)

  type ArtifactMap = map<string, Artifact>

  predicate DistinctScenarios(stress: seq<StressEntry>) {
    forall i, j :: 0 <= i < j < |stress| ==> stress[i].scenario != stress[j].scenario
  }

  predicate WellFormed(arts: ArtifactMap) {
    forall k :: k in arts ==> DistinctScenarios(arts[k].stress)
  }

  predicate Complete(arts: ArtifactMap, ps: seq<Position>) {
    forall i :: 0 <= i < |ps| ==> ps[i].id in arts
  }

  function StressAt(stress: seq<StressEntry>, scenario: string): real {
    if stress == [] then 0.0
    else if stress[0].scenario == scenario then stress[0].pnl
    else StressAt(stress[1..], scenario)
  }

  // ----- what is added up -----

  datatype Quantity = MarketValue | Delta | Gamma | Vega | Dv01 | FxDelta | StressPnl(scenario: string) | HistoricalPnl(date: nat)

  function Reading(a: Artifact, q: Quantity): real {
    match q
    case MarketValue => a.numbers.marketValue
    case Delta => a.numbers.delta
    case Gamma => a.numbers.gamma
    case Vega => a.numbers.vega
    case Dv01 => a.numbers.dv01
    case FxDelta => a.numbers.fxDelta
    case StressPnl(s) => StressAt(a.stress, s)
    case HistoricalPnl(i) => if a.historical.Some? && i < |a.historical.value| then a.historical.value[i] else 0.0
  }

  /** The sum of one quantity over positions. */
  function TotalOf(arts: ArtifactMap, ps: seq<Position>, q: Quantity): real
    requires Complete(arts, ps)
  {
    if ps == [] then 0.0 else Reading(arts[ps[0].id], q) + TotalOf(arts, ps[1..], q)
  }

  function NumbersOf(arts: ArtifactMap, ps: seq<Position>): Valuation
    requires Complete(arts, ps)
  {
    Valuation(TotalOf(arts, ps, MarketValue), TotalOf(arts, ps, Delta), TotalOf(arts, ps, Gamma), TotalOf(arts, ps, Vega),
              TotalOf(arts, ps, Dv01), TotalOf(arts, ps, FxDelta))
  }

  /** How long an artifact's history is, if it has one. */
  function Shape(a: Artifact): Option<nat> {
    match a.historical
    case None => None
    case Some(v) => Some(|v|)
  }

  /** Histories can be added: all omitted, or all of one length. */
  predicate Uniform(arts: ArtifactMap, ps: seq<Position>)
    requires Complete(arts, ps)
  {
    forall i :: 0 <= i < |ps| ==> Shape(arts[ps[i].id]) == Shape(arts[ps[0].id])
  }

  /** The summed history; None for no position and where histories are omitted. */
  function HistoryOf(arts: ArtifactMap, ps: seq<Position>): Option<Vec>
    requires Complete(arts, ps)
  {
    if ps == [] then None
    else match Shape(arts[ps[0].id])
      case None => None
      case Some(n) => Some(seq(n, i requires 0 <= i < n => TotalOf(arts, ps, HistoricalPnl(i))))
  }

  datatype StressResult = StressResult(scenario: string, pnl: real, byPosition: map<string, real>)

  datatype Metrics = Metrics(numbers: Valuation, risk: VarEs, stress: seq<StressResult>)

  function ByPosition(arts: ArtifactMap, ps: seq<Position>, scenario: string): map<string, real>
    requires Complete(arts, ps)
  {
    map i | 0 <= i < |ps| :: ps[i].id := StressAt(arts[ps[i].id].stress, scenario)
  }

  function StressOf(arts: ArtifactMap, ps: seq<Position>, scenario: string): StressResult
    requires Complete(arts, ps)
  {
    StressResult(scenario, TotalOf(arts, ps, StressPnl(scenario)), ByPosition(arts, ps, scenario))
  }

  /** The metrics of a node over these positions. */
  function MetricsOf(arts: ArtifactMap, ps: seq<Position>, scenarios: seq<string>): Metrics
    requires Complete(arts, ps)
  {
    Metrics(NumbersOf(arts, ps), VarEsFromHistoricalPnl(HistoryOf(arts, ps)),
            seq(|scenarios|, i requires 0 <= i < |scenarios| => StressOf(arts, ps, scenarios[i])))
  }

  // ----- adding artifacts one by one -----

  datatype Summed = Summed(numbers: Valuation, stress: map<string, real>, historical: Option<Vec>)

  function Lookup(stress: map<string, real>, scenario: string): real {
    if scenario in stress then stress[scenario] else 0.0
  }

  /** _merge_stress. */
  method MergeStress(left: map<string, real>, right: seq<StressEntry>) returns (merged: map<string, real>)
    requires DistinctScenarios(right)
    ensures forall s :: Lookup(merged, s) == Lookup(left, s) + StressAt(right, s)
  {
    merged := left;
    for i := 0 to |right|
      invariant forall s :: Lookup(merged, s) + StressAt(right[i..], s) == Lookup(left, s) + StressAt(right, s)
    {
      var e := right[i];
      assert right[i..][0] == e && right[i..][1..] == right[i + 1..];
      LaterAbsent(right, i);
      merged := merged[e.scenario := Lookup(merged, e.scenario) + e.pnl];
    }
  }

  lemma {:induction false} AbsentIsZero(stress: seq<StressEntry>, scenario: string)
    requires forall i :: 0 <= i < |stress| ==> stress[i].scenario != scenario
    ensures StressAt(stress, scenario) == 0.0
  {
    if stress != [] {
      AbsentIsZero(stress[1..], scenario);
    }
  }

  lemma LaterAbsent(stress: seq<StressEntry>, i: nat)
    requires DistinctScenarios(stress) && i < |stress|
    ensures StressAt(stress[i + 1..], stress[i].scenario) == 0.0
  {
    AbsentIsZero(stress[i + 1..], stress[i].scenario);
  }

  /** _add_historical. */
  function AddHistorical(left: Option<Vec>, right: Option<Vec>): Result<Option<Vec>, string> {
    match (left, right)
    case (None, None) => Ok(None)
    case (Some(x), Some(y)) => if |x| != |y| then Err("historical_pnl length mismatch") else Ok(Some(Add(x, y)))
    case _ => Err("historical_pnl is present on only one artifact")
  }

  /** What a running sum stands for. */
  ghost predicate Represents(t: Summed, arts: ArtifactMap, ps: seq<Position>)
    requires Complete(arts, ps)
  {
    && t.numbers == NumbersOf(arts, ps)
    && (forall s :: Lookup(t.stress, s) == TotalOf(arts, ps, StressPnl(s)))
    && t.historical == HistoryOf(arts, ps)
  }

  lemma {:induction false} TotalSnoc(arts: ArtifactMap, ps: seq<Position>, p: Position, q: Quantity)
    requires Complete(arts, ps + [p])
    ensures Complete(arts, ps) && p.id in arts
    ensures TotalOf(arts, ps + [p], q) == TotalOf(arts, ps, q) + Reading(arts[p.id], q)
  {
    var all := ps + [p];
    assert all[|ps|] == p;
    assert forall i :: 0 <= i < |ps| ==> all[i] == ps[i];
    if ps == [] {
      assert all[1..] == [];
    } else {
      assert all[1..] == ps[1..] + [p];
      TotalSnoc(arts, ps[1..], p, q);
    }
  }

  lemma HistorySnoc(arts: ArtifactMap, ps: seq<Position>, p: Position)
    requires Complete(arts, ps + [p]) && ps != [] && Complete(arts, ps) && Uniform(arts, ps)
    ensures p.id in arts
    ensures var r := AddHistorical(HistoryOf(arts, ps), arts[p.id].historical);
      r.Ok? == (Shape(arts[ps[0].id]) == Shape(arts[p.id])) && (r.Ok? ==> r.value == HistoryOf(arts, ps + [p]))
  {
    TotalSnoc(arts, ps, p, MarketValue);
    var all := ps + [p];
    assert all[0] == ps[0];
    var a := arts[p.id];
    if Shape(arts[ps[0].id]) == Shape(a) && a.historical.Some? {
      forall i | 0 <= i < |a.historical.value|
        ensures Add(HistoryOf(arts, ps).value, a.historical.value)[i] == HistoryOf(arts, all).value[i]
      {
        TotalSnoc(arts, ps, p, HistoricalPnl(i));
      }
      assert Add(HistoryOf(arts, ps).value, a.historical.value) == HistoryOf(arts, all).value;
    }
  }

  lemma UniformSnoc(arts: ArtifactMap, ps: seq<Position>, p: Position)
    requires Complete(arts, ps + [p]) && ps != [] && Complete(arts, ps)
    ensures p.id in arts
    ensures Uniform(arts, ps + [p]) <==> Uniform(arts, ps) && Shape(arts[p.id]) == Shape(arts[ps[0].id])
  {
    var all := ps + [p];
    assert all[|ps|] == p && all[0] == ps[0];
    assert forall i :: 0 <= i < |ps| ==> all[i] == ps[i];
  }

  lemma NumbersSnoc(arts: ArtifactMap, ps: seq<Position>, p: Position)
    requires Complete(arts, ps + [p])
    ensures Complete(arts, ps) && p.id in arts
    ensures NumbersOf(arts, ps + [p]) == AddValuations(NumbersOf(arts, ps), arts[p.id].numbers)
  {
    TotalSnoc(arts, ps, p, MarketValue);
    TotalSnoc(arts, ps, p, Delta);
    TotalSnoc(arts, ps, p, Gamma);
    TotalSnoc(arts, ps, p, Vega);
    TotalSnoc(arts, ps, p, Dv01);
    TotalSnoc(arts, ps, p, FxDelta);
  }

  /** TradeCalculationArtifact.add onto a running sum. */
  method AddArtifact(t: Summed, arts: ArtifactMap, ps: seq<Position>, p: Position) returns (r: Result<Summed, string>)
    requires WellFormed(arts) && Complete(arts, ps + [p]) && Complete(arts, ps) && ps != [] && Uniform(arts, ps)
    requires Represents(t, arts, ps)
    ensures r.Ok? <==> Uniform(arts, ps + [p])
    ensures r.Ok? ==> Represents(r.value, arts, ps + [p])
  {
    NumbersSnoc(arts, ps, p);
    HistorySnoc(arts, ps, p);
    UniformSnoc(arts, ps, p);
    var a := arts[p.id];
    var stress := MergeStress(t.stress, a.stress);
    var history := AddHistorical(t.historical, a.historical);
    if history.Err? {
      return Err(history.error);
    }
    forall s
      ensures Lookup(stress, s) == TotalOf(arts, ps + [p], StressPnl(s))
    {
      TotalSnoc(arts, ps, p, StressPnl(s));
    }
    r := Ok(Summed(AddValuations(t.numbers, a.numbers), stress, history.value));
  }

  lemma OneRepresented(arts: ArtifactMap, p: Position, stress: map<string, real>)
    requires p.id in arts && forall s :: Lookup(stress, s) == StressAt(arts[p.id].stress, s)
    ensures Complete(arts, [p]) && Uniform(arts, [p])
    ensures Represents(Summed(arts[p.id].numbers, stress, arts[p.id].historical), arts, [p])
  {
    assert [p][1..] == [];
    assert forall q :: TotalOf(arts, [p], q) == Reading(arts[p.id], q);
    if arts[p.id].historical.Some? {
      assert HistoryOf(arts, [p]).value == arts[p.id].historical.value;
    }
  }

  /** _sum_artifacts: an incomplete map raises, and so do histories that cannot be added. */
  method SumArtifacts(ps: seq<Position>, arts: ArtifactMap) returns (r: Result<Option<Summed>, string>)
    requires WellFormed(arts)
    ensures r.Ok? <==> Complete(arts, ps) && Uniform(arts, ps)
    ensures r.Ok? ==> r.value.Some? == (ps != [])
    ensures r.Ok? && ps != [] ==> Represents(r.value.value, arts, ps)
  {
    if !Complete(arts, ps) {
      return Err("incomplete artifact set");
    }
    if ps == [] {
      return Ok(None);
    }
    var first := arts[ps[0].id];
    var stress := MergeStress(map[], first.stress);
    var total := Summed(first.numbers, stress, first.historical);
    OneRepresented(arts, ps[0], stress);
    assert ps[..1] == [ps[0]];
    for i := 1 to |ps|
      invariant Uniform(arts, ps[..i]) && Represents(total, arts, ps[..i])
    {
      assert ps[..i + 1] == ps[..i] + [ps[i]];
      var next := AddArtifact(total, arts, ps[..i], ps[i]);
      if next.Err? {
        UniformPrefix(arts, ps, i + 1);
        return Err(next.error);
      }
      total := next.value;
    }
    assert ps[..|ps|] == ps;
    r := Ok(Some(total));
  }

  lemma UniformPrefix(arts: ArtifactMap, ps: seq<Position>, i: nat)
    requires Complete(arts, ps) && i <= |ps|
    ensures Complete(arts, ps[..i]) && (Uniform(arts, ps) ==> Uniform(arts, ps[..i]))
  {
    if i > 0 {
      assert ps[..i][0] == ps[0];
    }
  }

  /** The metrics _node_from_artifacts reads off the sum; the limits it also attaches are not modelled. */
  method NodeMetrics(ps: seq<Position>, arts: ArtifactMap, scenarios: seq<string>) returns (r: Result<Metrics, string>)
    requires WellFormed(arts)
    ensures r.Ok? <==> Complete(arts, ps) && Uniform(arts, ps)
    ensures r.Ok? ==> r.value == MetricsOf(arts, ps, scenarios)
  {
    var summed := SumArtifacts(ps, arts);
    if summed.Err? {
      return Err(summed.error);
    }
    var numbers := if summed.value.None? then NO_VALUE else summed.value.value.numbers;
    var history := if summed.value.None? then None else summed.value.value.historical;
    var pnl := if summed.value.None? then map[] else summed.value.value.stress;
    var stress := seq(|scenarios|, i requires 0 <= i < |scenarios| =>
      StressResult(scenarios[i], Lookup(pnl, scenarios[i]), ByPosition(arts, ps, scenarios[i])));
    assert stress == MetricsOf(arts, ps, scenarios).stress;
    r := Ok(Metrics(numbers, VarEsFromHistoricalPnl(history), stress));
  }

  // ----- order and grouping do not matter -----

  lemma {:induction false} TotalJoin(arts: ArtifactMap, a: seq<Position>, b: seq<Position>, q: Quantity)
    requires Complete(arts, a) && Complete(arts, b)
    ensures Complete(arts, a + b) && TotalOf(arts, a + b, q) == TotalOf(arts, a, q) + TotalOf(arts, b, q)
  {
    if a == [] {
      assert a + b == b;
    } else {
      assert (a + b)[0] == a[0] && (a + b)[1..] == a[1..] + b;
      TotalJoin(arts, a[1..], b, q);
    }
  }

  lemma CompletePermuted(arts: ArtifactMap, a: seq<Position>, b: seq<Position>)
    requires multiset(a) == multiset(b) && Complete(arts, a)
    ensures Complete(arts, b)
  {
    forall i | 0 <= i < |b|
      ensures b[i].id in arts
    {
      assert b[i] in multiset(a);
    }
  }

  lemma {:induction false} TotalPermuted(arts: ArtifactMap, a: seq<Position>, b: seq<Position>, q: Quantity)
    requires multiset(a) == multiset(b) && Complete(arts, a) && Complete(arts, b)
    ensures TotalOf(arts, a, q) == TotalOf(arts, b, q)
    decreases |a|
  {
    if a == [] {
      assert |multiset(b)| == 0;
    } else {
      var k := PermutedHead(a, b);
      var x, y := b[..k], b[k + 1..];
      CompletePermuted(arts, a[1..], x + y);
      TotalPermuted(arts, a[1..], x + y, q);
      TotalJoin(arts, x, y, q);
      TotalJoin(arts, x, [a[0]] + y, q);
      assert x + ([a[0]] + y) == b && ([a[0]] + y)[1..] == y;
    }
  }

  lemma UniformPermuted(arts: ArtifactMap, a: seq<Position>, b: seq<Position>)
    requires multiset(a) == multiset(b) && Complete(arts, a) && Complete(arts, b) && Uniform(arts, a)
    ensures Uniform(arts, b)
  {
    forall i | 0 <= i < |b|
      ensures Shape(arts[b[i].id]) == Shape(arts[a[0].id])
    {
      InPermuted(b, a, i);
    }
    if b != [] {
      InPermuted(b, a, 0);
    }
  }

  lemma InPermuted(b: seq<Position>, a: seq<Position>, i: nat)
    requires multiset(a) == multiset(b) && i < |b|
    ensures exists j :: 0 <= j < |a| && a[j] == b[i]
  {
    assert b[i] in multiset(a);
  }

  lemma HistoryPermuted(arts: ArtifactMap, a: seq<Position>, b: seq<Position>)
    requires multiset(a) == multiset(b) && Complete(arts, a) && Complete(arts, b) && Uniform(arts, a)
    ensures HistoryOf(arts, a) == HistoryOf(arts, b)
  {
    assert |a| == |multiset(a)| == |b|;
    if a != [] {
      InPermuted(b, a, 0);
      assert Shape(arts[b[0].id]) == Shape(arts[a[0].id]);
      if HistoryOf(arts, a).Some? {
        var x, y := HistoryOf(arts, a).value, HistoryOf(arts, b).value;
        forall i | 0 <= i < |x|
          ensures x[i] == y[i]
        {
          TotalPermuted(arts, a, b, HistoricalPnl(i));
        }
        assert x == y;
      }
    }
  }

  lemma NumbersPermuted(arts: ArtifactMap, a: seq<Position>, b: seq<Position>)
    requires multiset(a) == multiset(b) && Complete(arts, a) && Complete(arts, b)
    ensures NumbersOf(arts, a) == NumbersOf(arts, b)
  {
    TotalPermuted(arts, a, b, MarketValue);
    TotalPermuted(arts, a, b, Delta);
    TotalPermuted(arts, a, b, Gamma);
    TotalPermuted(arts, a, b, Vega);
    TotalPermuted(arts, a, b, Dv01);
    TotalPermuted(arts, a, b, FxDelta);
  }

  lemma ByPositionPermuted(arts: ArtifactMap, a: seq<Position>, b: seq<Position>, scenario: string)
    requires multiset(a) == multiset(b) && Complete(arts, a) && Complete(arts, b)
    ensures ByPosition(arts, a, scenario) == ByPosition(arts, b, scenario)
  {
    forall i | 0 <= i < |a|
      ensures a[i].id in ByPosition(arts, b, scenario)
    {
      InPermuted(a, b, i);
    }
    forall i | 0 <= i < |b|
      ensures b[i].id in ByPosition(arts, a, scenario)
    {
      InPermuted(b, a, i);
    }
  }

  /** A node's metrics do not depend on the order its positions were gathered in. */
  lemma MetricsPermuted(arts: ArtifactMap, a: seq<Position>, b: seq<Position>, scenarios: seq<string>)
    requires multiset(a) == multiset(b) && Complete(arts, a) && Complete(arts, b) && Uniform(arts, a)
    ensures MetricsOf(arts, a, scenarios) == MetricsOf(arts, b, scenarios)
  {
    NumbersPermuted(arts, a, b);
    HistoryPermuted(arts, a, b);
    forall i | 0 <= i < |scenarios|
      ensures StressOf(arts, a, scenarios[i]) == StressOf(arts, b, scenarios[i])
    {
      TotalPermuted(arts, a, b, StressPnl(scenarios[i]));
      ByPositionPermuted(arts, a, b, scenarios[i]);
    }
  }
}
