/**
 * VaR and ES of a hierarchy node, from the summed vectors of its trades, against the engine run on the node's own book
 * (_trade_artifacts and _node_from_artifacts in risk/hierarchy.py; HistoricalRiskEngine.calculate in risk/historical.py).
 */
module NodeRisk {
  import opened Wrappers
  import opened Vectors
  import opened HistoricalVar
  import opened Factors
  import opened HistoricalEngine
  import opened Artifacts

  /** The histories of positions that all have one of length n. */
  predicate HasHistories(arts: ArtifactMap, ps: seq<Position>, n: nat) {
    forall i :: 0 <= i < |ps| ==> ps[i].id in arts && Shape(arts[ps[i].id]) == Some(n)
  }

  function Histories(arts: ArtifactMap, ps: seq<Position>, n: nat): (r: seq<Vec>)
    requires HasHistories(arts, ps, n)
    ensures |r| == |ps| && Aligned(r, n)
  {
    seq(|ps|, k requires 0 <= k < |ps| => arts[ps[k].id].historical.value)
  }

  lemma {:induction false} TotalIsColumnSum(arts: ArtifactMap, ps: seq<Position>, n: nat, i: nat)
    requires HasHistories(arts, ps, n) && i < n
    ensures TotalOf(arts, ps, HistoricalPnl(i)) == Total(Histories(arts, ps, n), n)[i]
  {
    if ps != [] {
      assert Histories(arts, ps, n)[1..] == Histories(arts, ps[1..], n);
      TotalIsColumnSum(arts, ps[1..], n, i);
    }
  }

  /** The history of a node is the plain sum of its trades' vectors. */
  lemma HistoryIsTotal(arts: ArtifactMap, ps: seq<Position>, n: nat)
    requires HasHistories(arts, ps, n) && ps != []
    ensures HistoryOf(arts, ps) == Some(Total(Histories(arts, ps, n), n))
  {
    var sum := Total(Histories(arts, ps, n), n);
    forall i | 0 <= i < n
      ensures HistoryOf(arts, ps).value[i] == sum[i]
    {
      TotalIsColumnSum(arts, ps, n, i);
    }
    assert HistoryOf(arts, ps).value == sum;
  }

  // ----- shared factor history -----

  /** The artifacts the engine makes of valuations: each trade its own approximate series. */
  predicate MadeFrom(arts: ArtifactMap, ps: seq<Position>, vals: seq<Valuation>, history: seq<MacroMove>, methodology: Methodology, baseVol: real)
    requires !methodology.FULL_REVALUATION?
  {
    |vals| == |ps| && forall k :: 0 <= k < |ps| ==>
      && ps[k].id in arts && arts[ps[k].id].numbers == vals[k]
      && arts[ps[k].id].historical == Some(ApproximatePnlSeries(vals[k], history, methodology, baseVol).value)
  }

  /** A node's VaR and ES are the engine's for the node's positions: summing trade vectors equals revaluing the summed Greeks. */
  lemma NodeMatchesAggregated(arts: ArtifactMap, ps: seq<Position>, vals: seq<Valuation>, history: seq<MacroMove>, methodology: Methodology,
                              baseVol: real, scenarios: seq<string>)
    requires !methodology.FULL_REVALUATION? && history != []
    requires MadeFrom(arts, ps, vals, history, methodology, baseVol)
    ensures Complete(arts, ps) && Uniform(arts, ps)
    ensures CalculateAggregated(vals, history, methodology, baseVol) == Ok(MetricsOf(arts, ps, scenarios).risk)
  {
    var n := |history|;
    TradesAggregate(vals, history, methodology, baseVol);
    if ps == [] {
      assert AggregateGreeks(vals) == NO_VALUE;
      NoRisk(Total(TradeSeries(vals, history, methodology, baseVol), n), n);
    } else {
      assert Histories(arts, ps, n) == TradeSeries(vals, history, methodology, baseVol);
      HistoryIsTotal(arts, ps, n);
    }
  }

  /** A book without positions has no risk on either side. */
  lemma NoRisk(pnl: Vec, n: nat)
    requires n >= 1 && pnl == Zeros(n)
    ensures VarEsOfLosses(Negate(pnl)) == VarEs(0.0, 0.0, 0.0)
  {
    VarEsOrdered(Some(pnl), 0.0);
  }

  // ----- factor panel -----

  predicate MadeFromPanel(arts: ArtifactMap, ps: seq<Position>, factors: seq<seq<Factor>>, vals: seq<Valuation>, panel: seq<Observation>,
                          vols: BaseVols, methodology: Methodology)
    requires |factors| == |vals| && CoversBook(factors, panel, vols)
  {
    |vals| == |ps| && forall k :: 0 <= k < |ps| ==>
      && ps[k].id in arts && arts[ps[k].id].numbers == vals[k]
      && arts[ps[k].id].historical == Some(PositionSeries(factors[k], vals[k], panel, vols, methodology))
  }

  /** The same on the per-factor panel path. */
  lemma NodeMatchesPanel(arts: ArtifactMap, ps: seq<Position>, factors: seq<seq<Factor>>, vals: seq<Valuation>, panel: seq<Observation>,
                         vols: BaseVols, methodology: Methodology, scenarios: seq<string>)
    requires |factors| == |vals| && CoversBook(factors, panel, vols) && panel != []
    requires MadeFromPanel(arts, ps, factors, vals, panel, vols, methodology)
    ensures Complete(arts, ps) && Uniform(arts, ps)
    ensures CalculateFromPanel(factors, vals, panel, vols, methodology) == Ok(MetricsOf(arts, ps, scenarios).risk)
  {
    var n, series := |panel|, PanelSeries(factors, vals, panel, vols, methodology);
    if ps == [] {
      NoRisk(Total(series, n), n);
    } else {
      assert Histories(arts, ps, n) == series;
      HistoryIsTotal(arts, ps, n);
    }
  }
}
