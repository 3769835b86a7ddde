/** Which curve, key rates or scalar a zero rate is read from (pricing/curve_rates.py: _select_yield_curve_uncached, _snapshot_zero). */
module CurveChoice {
  import opened Wrappers
  import opened Strings
  import opened Curves
  import opened Snapshots
  import opened CurveRates

  predicate HasType(curves: seq<YieldCurve>, t: CurveType) {
    exists i :: 0 <= i < |curves| && curves[i].curveType == t
  }

  predicate IsFirstOf(curves: seq<YieldCurve>, i: nat, t: CurveType) {
    i < |curves| && curves[i].curveType == t && forall j :: 0 <= j < i ==> curves[j].curveType != t
  }

  lemma {:induction false} FirstAt(curves: seq<YieldCurve>, t: CurveType) returns (i: nat)
    requires HasType(curves, t)
    ensures IsFirstOf(curves, i, t) && FirstOf(curves, t) == Some(curves[i])
  {
    if curves[0].curveType == t {
      i := 0;
    } else {
      var j :| 0 <= j < |curves| && curves[j].curveType == t;
      assert curves[1..][j - 1].curveType == t;
      var k := FirstAt(curves[1..], t);
      i := k + 1;
      forall l | 0 <= l < i
        ensures curves[l].curveType != t
      {
        if l > 0 {
          assert curves[1..][l - 1] == curves[l];
        }
      }
    }
  }

  lemma NoneOfType(curves: seq<YieldCurve>, t: CurveType)
    requires !HasType(curves, t)
    ensures FirstOf(curves, t) == None
  {
    FirstIsOne(curves, t);
  }

  /** Among the named curves of a currency: the first projection curve if one is asked for, else the first discount curve, else the first of any. */
  lemma NamedCurveChosen(m: Marks, currency: string, preferProjection: bool, curves: seq<YieldCurve>) returns (i: nat)
    requires Candidates(m.curves, currency) == Ok(curves) && curves != []
    ensures i < |curves| && Select(m, currency, preferProjection) == Ok(Some(curves[i]))
    ensures preferProjection && HasType(curves, Projection) ==> IsFirstOf(curves, i, Projection)
    ensures !(preferProjection && HasType(curves, Projection)) && HasType(curves, Discount) ==> IsFirstOf(curves, i, Discount)
    ensures !(preferProjection && HasType(curves, Projection)) && !HasType(curves, Discount) ==> i == 0
  {
    if preferProjection && HasType(curves, Projection) {
      i := FirstAt(curves, Projection);
    } else {
      if !HasType(curves, Projection) {
        NoneOfType(curves, Projection);
      }
      if HasType(curves, Discount) {
        i := FirstAt(curves, Discount);
      } else {
        NoneOfType(curves, Discount);
        i := 0;
      }
    }
  }

  /** The curve at j of the list was built from the payload at at[j], of the currency. */
  ghost predicate BuiltFrom(curves: seq<NamedCurve>, currency: string, built: seq<YieldCurve>, at: seq<nat>) {
    && |at| == |built|
    && (forall j, k :: 0 <= j < k < |at| ==> at[j] < at[k])
    && (forall j :: 0 <= j < |at| ==> at[j] < |curves| && IsBuilt(curves[at[j]], currency, built[j]))
  }

  ghost predicate IsBuilt(c: NamedCurve, currency: string, curve: YieldCurve) {
    Upper(c.payload.currency) == Upper(currency) && BuildCurve(c.key, c.payload) == Ok(Some(curve))
  }

  /** Payloads of the currency that gave no curve have no pillar. */
  ghost predicate NoneMissed(curves: seq<NamedCurve>, currency: string, at: seq<nat>) {
    forall i :: 0 <= i < |curves| && i !in at && Upper(curves[i].payload.currency) == Upper(currency) ==>
      BuildCurve(curves[i].key, curves[i].payload) == Ok(None)
  }

  lemma StepBuilt(curves: seq<NamedCurve>, currency: string, built: seq<YieldCurve>, at: seq<nat>, curve: YieldCurve)
    requires curves != [] && BuiltFrom(curves[..|curves| - 1], currency, built, at) && IsBuilt(curves[|curves| - 1], currency, curve)
    ensures BuiltFrom(curves, currency, built + [curve], at + [|curves| - 1])
  {
  }

  lemma StepSkipped(curves: seq<NamedCurve>, currency: string, built: seq<YieldCurve>, at: seq<nat>)
    requires curves != [] && BuiltFrom(curves[..|curves| - 1], currency, built, at)
    ensures BuiltFrom(curves, currency, built, at)
  {
  }

  lemma StepMissed(curves: seq<NamedCurve>, currency: string, at: seq<nat>, more: seq<nat>)
    requires curves != [] && NoneMissed(curves[..|curves| - 1], currency, at)
    requires |curves| - 1 in more || Upper(curves[|curves| - 1].payload.currency) != Upper(currency)
          || BuildCurve(curves[|curves| - 1].key, curves[|curves| - 1].payload) == Ok(None)
    ensures NoneMissed(curves, currency, at + more)
  {
    hide BuildCurve, Upper;
    var n := |curves| - 1;
    forall i | 0 <= i < |curves| && i !in at + more && Upper(curves[i].payload.currency) == Upper(currency)
      ensures BuildCurve(curves[i].key, curves[i].payload) == Ok(None)
    {
      if i < n {
        assert curves[..n][i] == curves[i];
      }
    }
  }

  lemma LastCandidate(curves: seq<NamedCurve>, currency: string, built: seq<YieldCurve>) returns (before: seq<YieldCurve>, last: Option<YieldCurve>)
    requires curves != [] && Candidates(curves, currency) == Ok(built)
    ensures Candidates(curves[..|curves| - 1], currency) == Ok(before)
    ensures last.Some? ==> IsBuilt(curves[|curves| - 1], currency, last.value) && built == before + [last.value]
    ensures last.None? ==> built == before && (Upper(curves[|curves| - 1].payload.currency) != Upper(currency)
                                              || BuildCurve(curves[|curves| - 1].key, curves[|curves| - 1].payload) == Ok(None))
  {
    var c := curves[|curves| - 1];
    before := Candidates(curves[..|curves| - 1], currency).value;
    last := if MatchesCurrency(c.payload, currency) then BuildCurve(c.key, c.payload).value else None;
  }

  /** One curve for every payload of the currency that has a pillar, in the order of the dictionary. */
  lemma {:induction false} CandidatesAre(curves: seq<NamedCurve>, currency: string, built: seq<YieldCurve>) returns (at: seq<nat>)
    requires Candidates(curves, currency) == Ok(built)
    ensures BuiltFrom(curves, currency, built, at) && NoneMissed(curves, currency, at)
  {
    if curves == [] {
      at := [];
    } else {
      var before, last := LastCandidate(curves, currency, built);
      hide *;
      at := CandidatesAre(curves[..|curves| - 1], currency, before);
      if last.Some? {
        StepBuilt(curves, currency, before, at, last.value);
        StepMissed(curves, currency, at, [|curves| - 1]);
        at := at + [|curves| - 1];
      } else {
        StepSkipped(curves, currency, before, at);
        StepMissed(curves, currency, at, []);
        assert at + [] == at;
      }
    }
  }

  /** A curve has the currency and the type of its payload, anything but a projection being a discount curve, and one node for every tenor that parses. */
  lemma BuiltAs(key: string, p: CurvePayload, c: YieldCurve, n: CurveNode)
    requires BuildCurve(key, p) == Ok(Some(c))
    ensures c.currency == p.currency && c.name == (if p.name == "" then key else p.name)
    ensures c.curveType == Projection <==> p.curveType == "projection"
    ensures n in c.nodes <==> n.tenor in p.zeros && TenorToYears(n.tenor) == Some(n.years) && p.zeros[n.tenor] == n.zeroRate
    ensures Increasing(Years(c.nodes))
  {
    InOrderLists(PillarNodes(p.zeros));
    PillarsAre(p.zeros);
  }

  /** Without a named curve, key rates under the name as given, then under its upper case, empty ones not counting. */
  lemma KeyRatesChosen(m: Marks, currency: string, preferProjection: bool, spelling: string)
    requires Candidates(m.curves, currency) == Ok([])
    requires spelling in m.keyRates && m.keyRates[spelling] != map[]
    requires spelling == currency || (spelling == Upper(currency) && (currency in m.keyRates ==> m.keyRates[currency] == map[]))
    ensures Select(m, currency, preferProjection)
         == BuildCurve(Upper(currency) + "_KEY", CurvePayload(Upper(currency), "discount", Upper(currency) + "_KEY", m.keyRates[spelling]))
  {
  }

  lemma NothingChosen(m: Marks, currency: string, preferProjection: bool)
    requires Candidates(m.curves, currency) == Ok([])
    requires forall s :: s == currency || s == Upper(currency) ==> s !in m.keyRates || m.keyRates[s] == map[]
    ensures Select(m, currency, preferProjection) == Ok(None)
  {
    assert Upper(currency) !in m.keyRates || m.keyRates[Upper(currency)] == map[];
    assert currency !in m.keyRates || m.keyRates[currency] == map[];
  }

  /** Without either, the scalar projection rate if one is asked for and marked, else the scalar rate; a currency with neither fails. */
  lemma ScalarChosen(m: Marks, currency: string, t: real, preferProjection: bool)
    requires Select(m, currency, preferProjection) == Ok(None)
    ensures preferProjection && currency in m.projectionRates ==> RequiredZero(m, currency, t, preferProjection) == Ok(m.projectionRates[currency])
    ensures !(preferProjection && currency in m.projectionRates) && currency in m.rates ==>
      RequiredZero(m, currency, t, preferProjection) == Ok(m.rates[currency])
    ensures !(preferProjection && currency in m.projectionRates) && currency !in m.rates ==> RequiredZero(m, currency, t, preferProjection).Err?
  {
  }
}
