/**
 * P&L split by factor family, and the interaction residual of full revaluation (risk/es.py).
 */
module FactorAttribution {
  import opened Wrappers
  import opened RealMath
  import opened Vectors
  import opened HistoricalEngine
  import opened Factors
  import opened EsContributions

  const FAMILIES: seq<Family> := [FamilyEquity, FamilyVol, FamilyRate, FamilyFx]

  /** What the factors of one family move a position by on a date. */
  function FamilyPnlAt(family: Family, fs: seq<Factor>, v: Valuation, o: Observation, vols: BaseVols, methodology: Methodology): real
    requires Covered(fs, o, vols)
  {
    if fs == [] then 0.0
    else (if FamilyOf(fs[0]) == family then FactorPnl(fs[0], v, o, vols, methodology) else 0.0)
         + FamilyPnlAt(family, fs[1..], v, o, vols, methodology)
  }

  function BookFamilyPnlAt(family: Family, factors: seq<seq<Factor>>, vals: seq<Valuation>, o: Observation, vols: BaseVols,
                           methodology: Methodology): real
    requires |factors| == |vals| && forall k :: 0 <= k < |factors| ==> Covered(factors[k], o, vols)
  {
    if vals == [] then 0.0
    else FamilyPnlAt(family, factors[0], vals[0], o, vols, methodology)
         + BookFamilyPnlAt(family, factors[1..], vals[1..], o, vols, methodology)
  }

  function FamilySeries(family: Family, factors: seq<seq<Factor>>, vals: seq<Valuation>, panel: seq<Observation>, vols: BaseVols,
                        methodology: Methodology): (r: Vec)
    requires |factors| == |vals| && CoversBook(factors, panel, vols)
    ensures |r| == |panel|
  {
    seq(|panel|, i requires 0 <= i < |panel| => BookFamilyPnlAt(family, factors, vals, panel[i], vols, methodology))
  }

  /** The families in the order the source keys them. */
  function FamilyTable(factors: seq<seq<Factor>>, vals: seq<Valuation>, panel: seq<Observation>, vols: BaseVols, methodology: Methodology): (r: seq<Vec>)
    requires |factors| == |vals| && CoversBook(factors, panel, vols)
    ensures |r| == 4 && Aligned(r, |panel|)
  {
    seq(4, f requires 0 <= f < 4 => FamilySeries(FAMILIES[f], factors, vals, panel, vols, methodology))
  }

  /** _aggregate_factor_pnl_from_panel: one pass over dates, positions and factors. */
  method AggregateFactorPnlFromPanel(factors: seq<seq<Factor>>, vals: seq<Valuation>, panel: seq<Observation>, vols: BaseVols,
      methodology: Methodology)
    returns (r: Result<map<Family, Vec>, string>)
    requires |factors| == |vals|
    ensures r.Ok? <==> CoversBook(factors, panel, vols)
    ensures r.Ok? ==> forall f :: f in r.value && r.value[f] == FamilySeries(f, factors, vals, panel, vols, methodology)
  {
    if !CoversBook(factors, panel, vols) {
      return Err("panel missing required factor or base vol");
    }
    var n := |panel|;
    var out: map<Family, Vec> := map[FamilyEquity := Zeros(n), FamilyVol := Zeros(n), FamilyRate := Zeros(n), FamilyFx := Zeros(n)];
    forall f: Family
      ensures f in out && out[f] == Zeros(n)
    {
      match f
      case FamilyEquity =>
      case FamilyVol =>
      case FamilyRate =>
      case FamilyFx =>
    }
    for i := 0 to n
      invariant forall f :: f in out && |out[f]| == n
      invariant forall f, i' :: 0 <= i' < i ==>
        out[f][i'] == BookFamilyPnlAt(f, factors, vals, panel[i'], vols, methodology)
      invariant forall f, i' :: i <= i' < n ==> out[f][i'] == 0.0
    {
      out := AddDate(factors, vals, panel[i], vols, methodology, n, i, out);
    }
    r := Ok(out);
  }

  /** One date: out[family][i] += contribution, for every factor of every position. */
  method AddDate(factors: seq<seq<Factor>>, vals: seq<Valuation>, o: Observation, vols: BaseVols, methodology: Methodology,
      n: nat, i: nat, before: map<Family, Vec>)
    returns (out: map<Family, Vec>)
    requires |factors| == |vals| && i < n
    requires forall k :: 0 <= k < |factors| ==> Covered(factors[k], o, vols)
    requires forall f :: f in before && |before[f]| == n
    ensures forall f :: f in out && |out[f]| == n
    ensures forall f, i' :: 0 <= i' < n && i' != i ==> out[f][i'] == before[f][i']
    ensures forall f :: out[f][i] == before[f][i] + BookFamilyPnlAt(f, factors, vals, o, vols, methodology)
  {
    out := before;
    for k := 0 to |vals|
      invariant forall f :: f in out && |out[f]| == n
      invariant forall f, i' :: 0 <= i' < n && i' != i ==> out[f][i'] == before[f][i']
      invariant forall f :: out[f][i] + BookFamilyPnlAt(f, factors[k..], vals[k..], o, vols, methodology)
                         == before[f][i] + BookFamilyPnlAt(f, factors, vals, o, vols, methodology)
    {
      assert factors[k..][1..] == factors[k + 1..] && vals[k..][1..] == vals[k + 1..];
      out := AddPosition(factors[k], vals[k], o, vols, methodology, n, i, out);
    }
  }

  method AddPosition(fs: seq<Factor>, v: Valuation, o: Observation, vols: BaseVols, methodology: Methodology,
      n: nat, i: nat, before: map<Family, Vec>)
    returns (out: map<Family, Vec>)
    requires i < n && Covered(fs, o, vols)
    requires forall f :: f in before && |before[f]| == n
    ensures forall f :: f in out && |out[f]| == n
    ensures forall f, i' :: 0 <= i' < n && i' != i ==> out[f][i'] == before[f][i']
    ensures forall f :: out[f][i] == before[f][i] + FamilyPnlAt(f, fs, v, o, vols, methodology)
  {
    out := before;
    for j := 0 to |fs|
      invariant forall f :: f in out && |out[f]| == n
      invariant forall f, i' :: 0 <= i' < n && i' != i ==> out[f][i'] == before[f][i']
      invariant forall f :: out[f][i] + FamilyPnlAt(f, fs[j..], v, o, vols, methodology)
                         == before[f][i] + FamilyPnlAt(f, fs, v, o, vols, methodology)
    {
      assert fs[j..][1..] == fs[j + 1..];
      var family := FamilyOf(fs[j]);
      out := out[family := out[family][i := out[family][i] + FactorPnl(fs[j], v, o, vols, methodology)]];
    }
  }

  // ----- the families account for everything -----

  lemma {:induction false} PositionSplits(fs: seq<Factor>, v: Valuation, o: Observation, vols: BaseVols, methodology: Methodology)
    requires Covered(fs, o, vols)
    ensures PositionPnlAt(fs, v, o, vols, methodology)
      == FamilyPnlAt(FamilyEquity, fs, v, o, vols, methodology) + FamilyPnlAt(FamilyVol, fs, v, o, vols, methodology)
       + FamilyPnlAt(FamilyRate, fs, v, o, vols, methodology) + FamilyPnlAt(FamilyFx, fs, v, o, vols, methodology)
  {
    if fs != [] {
      PositionSplits(fs[1..], v, o, vols, methodology);
    }
  }

  function BookPnlAt(factors: seq<seq<Factor>>, vals: seq<Valuation>, o: Observation, vols: BaseVols, methodology: Methodology): real
    requires |factors| == |vals| && forall k :: 0 <= k < |factors| ==> Covered(factors[k], o, vols)
  {
    if vals == [] then 0.0
    else PositionPnlAt(factors[0], vals[0], o, vols, methodology) + BookPnlAt(factors[1..], vals[1..], o, vols, methodology)
  }

  lemma {:induction false} BookSplits(factors: seq<seq<Factor>>, vals: seq<Valuation>, o: Observation, vols: BaseVols, methodology: Methodology)
    requires |factors| == |vals| && forall k :: 0 <= k < |factors| ==> Covered(factors[k], o, vols)
    ensures BookPnlAt(factors, vals, o, vols, methodology)
      == BookFamilyPnlAt(FamilyEquity, factors, vals, o, vols, methodology)
       + BookFamilyPnlAt(FamilyVol, factors, vals, o, vols, methodology)
       + BookFamilyPnlAt(FamilyRate, factors, vals, o, vols, methodology)
       + BookFamilyPnlAt(FamilyFx, factors, vals, o, vols, methodology)
  {
    if vals != [] {
      PositionSplits(factors[0], vals[0], o, vols, methodology);
      BookSplits(factors[1..], vals[1..], o, vols, methodology);
    }
  }

  lemma {:induction false} PanelTotalAt(factors: seq<seq<Factor>>, vals: seq<Valuation>, panel: seq<Observation>, vols: BaseVols,
                                        methodology: Methodology, i: nat)
    requires |factors| == |vals| && CoversBook(factors, panel, vols) && i < |panel|
    ensures Total(PanelSeries(factors, vals, panel, vols, methodology), |panel|)[i]
         == BookPnlAt(factors, vals, panel[i], vols, methodology)
  {
    if vals != [] {
      assert PanelSeries(factors, vals, panel, vols, methodology)[1..] == PanelSeries(factors[1..], vals[1..], panel, vols, methodology);
      PanelTotalAt(factors[1..], vals[1..], panel, vols, methodology, i);
    }
  }

  lemma TotalOfFour(xs: seq<Vec>, n: nat, i: nat)
    requires |xs| == 4 && Aligned(xs, n) && i < n
    ensures Total(xs, n)[i] == xs[0][i] + xs[1][i] + xs[2][i] + xs[3][i]
  {
    TotalHead(xs, n, i);
    TotalHead(xs[1..], n, i);
    TotalHead(xs[1..][1..], n, i);
    TotalHead(xs[1..][1..][1..], n, i);
  }

  lemma TotalHead(xs: seq<Vec>, n: nat, i: nat)
    requires xs != [] && Aligned(xs, n) && i < n
    ensures Aligned(xs[1..], n) && Total(xs, n)[i] == xs[0][i] + Total(xs[1..], n)[i]
  {
  }

  /** The four family series add up, date by date, to the positions' own panel P&L. */
  lemma FamiliesSumToPositions(factors: seq<seq<Factor>>, vals: seq<Valuation>, panel: seq<Observation>, vols: BaseVols, methodology: Methodology)
    requires |factors| == |vals| && CoversBook(factors, panel, vols)
    ensures Total(FamilyTable(factors, vals, panel, vols, methodology), |panel|)
         == Total(PanelSeries(factors, vals, panel, vols, methodology), |panel|)
  {
    var table := FamilyTable(factors, vals, panel, vols, methodology);
    forall i | 0 <= i < |panel|
      ensures Total(table, |panel|)[i] == Total(PanelSeries(factors, vals, panel, vols, methodology), |panel|)[i]
    {
      TotalOfFour(table, |panel|, i);
      BookSplits(factors, vals, panel[i], vols, methodology);
      PanelTotalAt(factors, vals, panel, vols, methodology, i);
    }
  }

  /** Full revaluation: the residual of the joint P&L over the families joins them as a fifth entry. */
  function WithInteraction(table: seq<Vec>, total: Vec): (r: seq<Vec>)
    requires Aligned(table, |total|)
    ensures Aligned(r, |total|)
  {
    table + [Sub(total, Total(table, |total|))]
  }

  /** Families and interaction add up to the joint P&L whatever it is, so their ES contributions sum to its own. */
  lemma InteractionReconciles(table: seq<Vec>, total: Vec, mask: Mask)
    requires Aligned(table, |total|) && |mask| == |total|
    ensures Total(WithInteraction(table, total), |total|) == total
    ensures Sum(Contributions(WithInteraction(table, total), mask)) == TailMeanLoss(total, mask)
  {
    ResidualCompletes(table, total);
    ContributionsSum(WithInteraction(table, total), mask);
  }

  lemma ResidualCompletes(table: seq<Vec>, total: Vec)
    requires Aligned(table, |total|)
    ensures Total(WithInteraction(table, total), |total|) == total
  {
    var part := Total(table, |total|);
    TotalSnoc(table, Sub(total, part), |total|);
    AddSub(part, total);
  }

  lemma AddSub(part: Vec, total: Vec)
    requires |part| == |total|
    ensures Add(part, Sub(total, part)) == total
  {
  }

  // ----- the shared-history split -----

  /** What _aggregate_factor_pnl_linear adds to one family for one position on one date. */
  function MacroFamilyPnl(family: Family, v: Valuation, m: MacroMove, methodology: Methodology, baseVol: real): real {
    match family
    case FamilyEquity =>
      v.delta * m.equityReturn
      + if methodology.DELTA_GAMMA? then 0.5 * v.gamma * m.equityReturn * m.equityReturn else 0.0
    case FamilyVol => v.vega * RelativeVolMoveToVolPoints(m.volMove, baseVol)
    case FamilyRate => v.dv01 * m.rateBps
    case FamilyFx => v.fxDelta * m.fxReturn
  }

  lemma MacroPositionSum(v: Valuation, history: seq<MacroMove>, methodology: Methodology, baseVol: real, i: nat)
    requires !methodology.FULL_REVALUATION? && i < |history|
    ensures MacroFamilyPnl(FamilyEquity, v, history[i], methodology, baseVol)
          + MacroFamilyPnl(FamilyVol, v, history[i], methodology, baseVol)
          + MacroFamilyPnl(FamilyRate, v, history[i], methodology, baseVol)
          + MacroFamilyPnl(FamilyFx, v, history[i], methodology, baseVol)
         == ApproximatePnlSeries(v, history, methodology, baseVol).value[i]
  {
    KernelMatchesArrays(v, history, methodology, baseVol, i);
  }

  function MacroBookPnl(family: Family, vals: seq<Valuation>, m: MacroMove, methodology: Methodology, baseVol: real): real {
    if vals == [] then 0.0 else MacroFamilyPnl(family, vals[0], m, methodology, baseVol) + MacroBookPnl(family, vals[1..], m, methodology, baseVol)
  }

  function MacroSeries(family: Family, vals: seq<Valuation>, history: seq<MacroMove>, methodology: Methodology, baseVol: real): (r: Vec)
    ensures |r| == |history|
  {
    seq(|history|, i requires 0 <= i < |history| => MacroBookPnl(family, vals, history[i], methodology, baseVol))
  }

  function MacroTable(vals: seq<Valuation>, history: seq<MacroMove>, methodology: Methodology, baseVol: real): (r: seq<Vec>)
    ensures |r| == 4 && Aligned(r, |history|)
  {
    seq(4, f requires 0 <= f < 4 => MacroSeries(FAMILIES[f], vals, history, methodology, baseVol))
  }

  /** _aggregate_factor_pnl_linear: every position adds its vector to each of the four families. */
  method AggregateFactorPnlLinear(vals: seq<Valuation>, history: seq<MacroMove>, methodology: Methodology, baseVol: real) returns (out: map<Family, Vec>)
    ensures forall f :: f in out && out[f] == MacroSeries(f, vals, history, methodology, baseVol)
  {
    var n := |history|;
    out := map[FamilyEquity := Zeros(n), FamilyVol := Zeros(n), FamilyRate := Zeros(n), FamilyFx := Zeros(n)];
    forall f: Family
      ensures f in out && out[f] == Zeros(n)
    {
      match f
      case FamilyEquity =>
      case FamilyVol =>
      case FamilyRate =>
      case FamilyFx =>
    }
    for k := 0 to |vals|
      invariant forall f :: f in out && |out[f]| == n
      invariant forall f, i :: 0 <= i < n ==>
        out[f][i] + MacroBookPnl(f, vals[k..], history[i], methodology, baseVol) == MacroBookPnl(f, vals, history[i], methodology, baseVol)
    {
      assert vals[k..][1..] == vals[k + 1..];
      out := AddMacroPosition(vals[k], history, methodology, baseVol, out);
    }
  }

  method AddMacroPosition(v: Valuation, history: seq<MacroMove>, methodology: Methodology, baseVol: real, before: map<Family, Vec>)
    returns (out: map<Family, Vec>)
    requires forall f :: f in before && |before[f]| == |history|
    ensures forall f :: f in out && |out[f]| == |history|
    ensures forall f, i :: 0 <= i < |history| ==> out[f][i] == before[f][i] + MacroFamilyPnl(f, v, history[i], methodology, baseVol)
  {
    out := map f: Family | f in before ::
      Add(before[f], seq(|history|, i requires 0 <= i < |history| => MacroFamilyPnl(f, v, history[i], methodology, baseVol)));
  }

  lemma {:induction false} MacroBookSplits(vals: seq<Valuation>, history: seq<MacroMove>, methodology: Methodology, baseVol: real, i: nat)
    requires !methodology.FULL_REVALUATION? && i < |history|
    ensures MacroBookPnl(FamilyEquity, vals, history[i], methodology, baseVol) + MacroBookPnl(FamilyVol, vals, history[i], methodology, baseVol)
          + MacroBookPnl(FamilyRate, vals, history[i], methodology, baseVol) + MacroBookPnl(FamilyFx, vals, history[i], methodology, baseVol)
         == Total(TradeSeries(vals, history, methodology, baseVol), |history|)[i]
  {
    if vals != [] {
      var series := TradeSeries(vals, history, methodology, baseVol);
      assert series[1..] == TradeSeries(vals[1..], history, methodology, baseVol);
      TotalHead(series, |history|, i);
      MacroPositionSum(vals[0], history, methodology, baseVol, i);
      MacroBookSplits(vals[1..], history, methodology, baseVol, i);
    }
  }

  /** On the shared history the four families of a book add up, date by date, to its trades' approximate P&L, and to that of its summed Greeks. */
  lemma MacroFamiliesSum(vals: seq<Valuation>, history: seq<MacroMove>, methodology: Methodology, baseVol: real)
    requires !methodology.FULL_REVALUATION?
    ensures Total(MacroTable(vals, history, methodology, baseVol), |history|) == Total(TradeSeries(vals, history, methodology, baseVol), |history|)
    ensures Ok(Total(MacroTable(vals, history, methodology, baseVol), |history|))
         == ApproximatePnlSeries(AggregateGreeks(vals), history, methodology, baseVol)
  {
    var table := MacroTable(vals, history, methodology, baseVol);
    forall i | 0 <= i < |history|
      ensures Total(table, |history|)[i] == Total(TradeSeries(vals, history, methodology, baseVol), |history|)[i]
    {
      TotalOfFour(table, |history|, i);
      MacroBookSplits(vals, history, methodology, baseVol, i);
    }
    TradesAggregate(vals, history, methodology, baseVol);
  }
}
