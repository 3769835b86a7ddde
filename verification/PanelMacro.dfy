/**
 * The per-factor panel against the shared four-factor history, family by family (risk/historical.py, risk/es.py).
 */
module PanelMacro {
  import opened Wrappers
  import opened RealMath
  import opened Vectors
  import opened Factors
  import opened HistoricalVar
  import opened HistoricalEngine
  import opened FactorAttribution

  /** Which factors a family is made of. */
  predicate OfFamily(family: Family, f: Factor) {
    match family
    case FamilyEquity => f.EquitySpot?
    case FamilyVol => f.EquityVol? || f.FXVol?
    case FamilyRate => f.RateZero?
    case FamilyFx => f.FXSpot?
  }

  /** The column of the factor shows the macro move of its kind, and its base vol is the one given. */
  predicate Shows(f: Factor, o: Observation, vols: BaseVols, m: MacroMove, baseVol: real) {
    && ColumnOf(f) in o
    && match f
       case EquitySpot(_) => o[ColumnOf(f)] == m.equityReturn
       case FXSpot(_) => o[ColumnOf(f)] == m.fxReturn
       case RateZero(_, _) => o[ColumnOf(f)] == m.rateBps
       case EquityVol(u, _, _) => o[ColumnOf(f)] == m.volMove && u in vols.equity && vols.equity[u] == baseVol
       case FXVol(p, _, _) => o[ColumnOf(f)] == m.volMove && p in vols.fx && vols.fx[p] == baseVol
  }

  predicate AllShow(fs: seq<Factor>, o: Observation, vols: BaseVols, m: MacroMove, baseVol: real) {
    forall j :: 0 <= j < |fs| ==> Shows(fs[j], o, vols, m, baseVol)
  }

  function Copies(family: Family, fs: seq<Factor>): nat {
    if fs == [] then 0 else (if OfFamily(family, fs[0]) then 1 else 0) + Copies(family, fs[1..])
  }

  lemma ShowsCovers(fs: seq<Factor>, o: Observation, vols: BaseVols, m: MacroMove, baseVol: real)
    requires AllShow(fs, o, vols, m, baseVol)
    ensures Covered(fs, o, vols)
  {
    forall j | 0 <= j < |fs|
      ensures ColumnOf(fs[j]) in o && HasBaseVol(fs[j], vols)
    {
      assert Shows(fs[j], o, vols, m, baseVol);
    }
  }

  lemma FactorIsMacro(family: Family, f: Factor, v: Valuation, o: Observation, vols: BaseVols, m: MacroMove, methodology: Methodology, baseVol: real)
    requires Shows(f, o, vols, m, baseVol)
    ensures HasBaseVol(f, vols) && (FamilyOf(f) == family <==> OfFamily(family, f))
    ensures OfFamily(family, f) ==> FactorPnl(f, v, o, vols, methodology) == MacroFamilyPnl(family, v, m, methodology, baseVol)
  {
  }

  lemma Once(x: real)
    ensures Times(1, x) == x
  {
  }

  /** When the columns of a position show the shared move, each family earns what the shared split gives it, once for every factor it has. */
  lemma {:induction false} FamilyIsMacro(family: Family, fs: seq<Factor>, v: Valuation, o: Observation, vols: BaseVols, m: MacroMove,
                                         methodology: Methodology, baseVol: real)
    requires AllShow(fs, o, vols, m, baseVol)
    ensures Covered(fs, o, vols)
    ensures FamilyPnlAt(family, fs, v, o, vols, methodology) == Times(Copies(family, fs), MacroFamilyPnl(family, v, m, methodology, baseVol))
  {
    hide MacroFamilyPnl, FactorPnl, Shows;
    ShowsCovers(fs, o, vols, m, baseVol);
    if fs != [] {
      assert AllShow(fs[1..], o, vols, m, baseVol);
      FamilyIsMacro(family, fs[1..], v, o, vols, m, methodology, baseVol);
      assert Shows(fs[0], o, vols, m, baseVol);
      FactorIsMacro(family, fs[0], v, o, vols, m, methodology, baseVol);
    }
  }

  lemma MacroIsArray(v: Valuation, m: MacroMove, methodology: Methodology, baseVol: real)
    requires !methodology.FULL_REVALUATION?
    ensures MacroFamilyPnl(FamilyEquity, v, m, methodology, baseVol) + MacroFamilyPnl(FamilyVol, v, m, methodology, baseVol)
          + MacroFamilyPnl(FamilyRate, v, m, methodology, baseVol) + MacroFamilyPnl(FamilyFx, v, m, methodology, baseVol)
         == ArrayPnlAt(v, m, methodology, baseVol)
  {
  }

  /** A position with one factor of each kind is moved by its panel as the shared history moves it. */
  lemma PanelMatchesShared(fs: seq<Factor>, v: Valuation, o: Observation, vols: BaseVols, m: MacroMove, methodology: Methodology, baseVol: real)
    requires AllShow(fs, o, vols, m, baseVol) && !methodology.FULL_REVALUATION?
    requires Copies(FamilyEquity, fs) == Copies(FamilyVol, fs) == Copies(FamilyRate, fs) == Copies(FamilyFx, fs) == 1
    ensures Covered(fs, o, vols)
    ensures PositionPnlAt(fs, v, o, vols, methodology) == ArrayPnlAt(v, m, methodology, baseVol)
  {
    hide *;
    ShowsCovers(fs, o, vols, m, baseVol);
    PositionSplits(fs, v, o, vols, methodology);
    FamilyIsMacro(FamilyEquity, fs, v, o, vols, m, methodology, baseVol);
    FamilyIsMacro(FamilyVol, fs, v, o, vols, m, methodology, baseVol);
    FamilyIsMacro(FamilyRate, fs, v, o, vols, m, methodology, baseVol);
    FamilyIsMacro(FamilyFx, fs, v, o, vols, m, methodology, baseVol);
    Once(MacroFamilyPnl(FamilyEquity, v, m, methodology, baseVol));
    Once(MacroFamilyPnl(FamilyVol, v, m, methodology, baseVol));
    Once(MacroFamilyPnl(FamilyRate, v, m, methodology, baseVol));
    Once(MacroFamilyPnl(FamilyFx, v, m, methodology, baseVol));
    MacroIsArray(v, m, methodology, baseVol);
  }

  // ----- each family reads its own Greeks -----

  predicate SameExposure(family: Family, v: Valuation, w: Valuation) {
    match family
    case FamilyEquity => v.delta == w.delta && v.gamma == w.gamma
    case FamilyVol => v.vega == w.vega
    case FamilyRate => v.dv01 == w.dv01
    case FamilyFx => v.fxDelta == w.fxDelta
  }

  lemma FactorReadsItsGreeks(family: Family, f: Factor, v: Valuation, w: Valuation, o: Observation, vols: BaseVols, methodology: Methodology)
    requires OfFamily(family, f) && SameExposure(family, v, w) && ColumnOf(f) in o && HasBaseVol(f, vols)
    ensures FactorPnl(f, v, o, vols, methodology) == FactorPnl(f, w, o, vols, methodology)
  {
  }

  lemma FamilyIs(family: Family, f: Factor)
    ensures FamilyOf(f) == family <==> OfFamily(family, f)
  {
  }

  /** What a family earns on a position depends on no Greek but its own. */
  lemma {:induction false} FamilyReadsItsGreeks(family: Family, fs: seq<Factor>, v: Valuation, w: Valuation, o: Observation, vols: BaseVols,
                                                methodology: Methodology)
    requires Covered(fs, o, vols) && SameExposure(family, v, w)
    ensures FamilyPnlAt(family, fs, v, o, vols, methodology) == FamilyPnlAt(family, fs, w, o, vols, methodology)
  {
    if fs != [] {
      FamilyReadsItsGreeks(family, fs[1..], v, w, o, vols, methodology);
      FamilyIs(family, fs[0]);
      if OfFamily(family, fs[0]) {
        FactorReadsItsGreeks(family, fs[0], v, w, o, vols, methodology);
      }
    }
  }

  lemma FactorOfNothing(f: Factor, o: Observation, vols: BaseVols, methodology: Methodology)
    requires ColumnOf(f) in o && HasBaseVol(f, vols)
    ensures FactorPnl(f, NO_VALUE, o, vols, methodology) == 0.0
  {
    MulZero(o[ColumnOf(f)] * o[ColumnOf(f)], 0.0);
  }

  lemma {:induction false} FamilyOfNothing(family: Family, fs: seq<Factor>, o: Observation, vols: BaseVols, methodology: Methodology)
    requires Covered(fs, o, vols)
    ensures FamilyPnlAt(family, fs, NO_VALUE, o, vols, methodology) == 0.0
  {
    if fs != [] {
      FamilyOfNothing(family, fs[1..], o, vols, methodology);
      FactorOfNothing(fs[0], o, vols, methodology);
    }
  }

  /** A book whose positions have no Greek of a family earns nothing from it on any date: neither on its panel nor on the shared history. */
  lemma {:induction false} NoExposureNoPnl(family: Family, factors: seq<seq<Factor>>, vals: seq<Valuation>, o: Observation, vols: BaseVols,
                                           m: MacroMove, methodology: Methodology, baseVol: real)
    requires |factors| == |vals| && forall k :: 0 <= k < |factors| ==> Covered(factors[k], o, vols)
    requires forall k :: 0 <= k < |vals| ==> SameExposure(family, vals[k], NO_VALUE)
    ensures BookFamilyPnlAt(family, factors, vals, o, vols, methodology) == 0.0
    ensures MacroBookPnl(family, vals, m, methodology, baseVol) == 0.0
  {
    if vals != [] {
      NoExposureNoPnl(family, factors[1..], vals[1..], o, vols, m, methodology, baseVol);
      FamilyReadsItsGreeks(family, factors[0], vals[0], NO_VALUE, o, vols, methodology);
      FamilyOfNothing(family, factors[0], o, vols, methodology);
      MacroOfNothing(family, vals[0], m, methodology, baseVol);
    }
  }

  lemma MacroOfNothing(family: Family, v: Valuation, m: MacroMove, methodology: Methodology, baseVol: real)
    requires SameExposure(family, v, NO_VALUE)
    ensures MacroFamilyPnl(family, v, m, methodology, baseVol) == 0.0
  {
    MulZero(m.equityReturn * m.equityReturn, 0.0);
  }

  /** So whole series of the family are zero. */
  lemma NoExposureNoSeries(family: Family, factors: seq<seq<Factor>>, vals: seq<Valuation>, panel: seq<Observation>, vols: BaseVols, methodology: Methodology)
    requires |factors| == |vals| && CoversBook(factors, panel, vols)
    requires forall k :: 0 <= k < |vals| ==> SameExposure(family, vals[k], NO_VALUE)
    ensures FamilySeries(family, factors, vals, panel, vols, methodology) == Zeros(|panel|)
  {
    forall i | 0 <= i < |panel|
      ensures FamilySeries(family, factors, vals, panel, vols, methodology)[i] == 0.0
    {
      NoExposureNoPnl(family, factors, vals, panel[i], vols, MacroMove(0.0, 0.0, 0.0, 0.0), methodology, 0.0);
    }
  }

  // ----- columns -----

  predicate IsVol(f: Factor) {
    f.EquityVol? || f.FXVol?
  }

  function NameOf(f: Factor): string
    requires IsVol(f)
  {
    if f.EquityVol? then f.underlying else f.pair
  }

  lemma SameStart(a: string, b: string, end: string)
    requires a + end == b + end
    ensures a == b
  {
    assert |a| == |b|;
    assert a == (a + end)[..|a|] && b == (b + end)[..|b|];
  }

  /** Two factors read one column exactly when they are one factor, or vol factors of one name, whatever their buckets. */
  lemma ColumnsExactly(f: Factor, g: Factor)
    ensures ColumnOf(f) == ColumnOf(g) <==> (f == g || (IsVol(f) && IsVol(g) && NameOf(f) == NameOf(g)))
  {
    if f.RateZero? && g.RateZero? && ColumnOf(f) == ColumnOf(g) {
      SameStart(f.currency, g.currency, ":RATE");
    }
  }
}
