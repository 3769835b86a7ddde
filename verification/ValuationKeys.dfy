/**
 * The valuation cache key, and for which positions and markets it decides the builtin value
 * (trade_cache_key, market_cache_key and valuation_cache_key in pricing/cache.py).
 *
 * Hashes are the hashed payloads themselves: equal exactly when the payloads are.
 */
module ValuationKeys {
  import opened Wrappers
  import opened Strings
  import opened Vectors
  import opened RealMath
  import opened Curves
  import opened Snapshots
  import opened ShockAlgebra
  import opened CurveRates
  import opened CurveCache
  import opened HistoricalEngine
  import opened Builtin
  import opened PricingCache
  import opened CacheProtocol
  import V = VolSurfaces

  // ----- the keys -----

  /** content_hash: all marks, dictionaries without their order. */
  datatype Content = Content(flat: Marks, curves: map<string, CurvePayload>)

  datatype MarketKey = MarketKey(content: Content, day: Option<int>)

  datatype ValuationKey = ValuationKey(trade: Terms, market: MarketKey)

  function ContentOf(m: Marks): Content {
    Content(m.(curves := []), CurveMap(m.curves))
  }

  /** The id and engine labels are left out; a calendar date is kept. */
  function MarketKeyOf(s: Snapshot): MarketKey {
    MarketKey(ContentOf(s.marks), match s.asOf case Calendar(d) => Some(d) case EngineLabel(_) => None)
  }

  /** The settlement currency of equity families is dropped. */
  function TradeKeyOf(t: Terms): Terms {
    if IsEquityFamily(t.economics) then Terms(t.header, WithCurrency(t.economics, "")) else t
  }

  predicate SameTrade(p: Position, q: Position) {
    TermsOf(p).Ok? && TermsOf(q).Ok? && TradeKeyOf(TermsOf(p).value) == TradeKeyOf(TermsOf(q).value)
  }

  function KeyFor(p: Position, s: Snapshot): Result<ValuationKey, string> {
    match TermsOf(p)
    case Err(e) => Err(e)
    case Ok(t) => Ok(ValuationKey(TradeKeyOf(t), MarketKeyOf(s)))
  }

  // ----- markets with one content -----

  /** The same marks, the curves perhaps in another order. */
  ghost predicate Reordered(m: Marks, n: Marks) {
    n == m.(curves := n.curves) && multiset(m.curves) == multiset(n.curves)
  }

  lemma SameContent(m: Marks, n: Marks)
    requires DistinctCurves(m.curves) && DistinctCurves(n.curves) && ContentOf(m) == ContentOf(n)
    ensures Reordered(m, n)
  {
    SameMapPermuted(m.curves, n.curves);
    FlatRestores(m, n);
  }

  lemma FlatRestores(m: Marks, n: Marks)
    requires m.(curves := []) == n.(curves := [])
    ensures n == m.(curves := n.curves)
  {
    assert m.(curves := []).(curves := n.curves) == n.(curves := []).(curves := n.curves);
  }

  lemma ReorderedContent(m: Marks, n: Marks)
    requires DistinctCurves(m.curves) && Reordered(m, n)
    ensures DistinctCurves(n.curves) && ContentOf(m) == ContentOf(n)
  {
    PermutedDistinct(m.curves, n.curves);
    PermutedSameMap(m.curves, n.curves);
  }

  lemma PermutedDistinct(a: seq<NamedCurve>, b: seq<NamedCurve>)
    requires DistinctCurves(a) && multiset(a) == multiset(b)
    ensures DistinctCurves(b)
  {
    forall i, j | 0 <= i < j < |b|
      ensures b[i].key != b[j].key
    {
      TwoPlaces(b, i, j);
      DistinctOnce(a, b[i]);
      assert multiset(a)[b[i]] >= 1 && b[j] in multiset(a);
      assert b[i] != b[j];
      var k :| 0 <= k < |a| && a[k] == b[i];
      var l :| 0 <= l < |a| && a[l] == b[j];
      assert k < l || l < k;
    }
  }

  lemma TwoPlaces(b: seq<NamedCurve>, i: nat, j: nat)
    requires i < j < |b|
    ensures b[i] == b[j] ==> multiset(b)[b[i]] >= 2
  {
    SplitAt(b, j);
    assert b[i] in b[..j] by {
      assert b[..j][i] == b[i];
    }
  }

  lemma PermutedSameMap(a: seq<NamedCurve>, b: seq<NamedCurve>)
    requires DistinctCurves(a) && DistinctCurves(b) && multiset(a) == multiset(b)
    ensures CurveMap(a) == CurveMap(b)
  {
    MapWithin(a, b);
    MapWithin(b, a);
  }

  lemma MapWithin(a: seq<NamedCurve>, b: seq<NamedCurve>)
    requires DistinctCurves(a) && DistinctCurves(b) && multiset(a) == multiset(b)
    ensures forall k :: k in CurveMap(a) ==> k in CurveMap(b) && CurveMap(b)[k] == CurveMap(a)[k]
  {
    forall k | k in CurveMap(a)
      ensures k in CurveMap(b) && CurveMap(b)[k] == CurveMap(a)[k]
    {
      var c := NamedCurve(k, CurveMap(a)[k]);
      CurveMapHas(a, c);
      assert c in multiset(b);
      CurveMapHas(b, c);
    }
  }

  // ----- what a valuation reads of a market -----

  ghost predicate Clear(m: Marks, currency: string) {
    OneCurveEach(m, currency, false) && OneCurveEach(m, currency, true)
  }

  lemma SelectSame(m: Marks, n: Marks, currency: string, preferProjection: bool)
    requires Reordered(m, n) && OneCurveEach(m, currency, preferProjection)
    ensures Select(m, currency, preferProjection) == Select(n, currency, preferProjection)
  {
    UnambiguousSelect(m, currency, preferProjection, n.curves);
  }

  ghost predicate SameZeros(m: Marks, n: Marks, currency: string) {
    forall t, p :: RequiredZero(m, currency, t, p) == RequiredZero(n, currency, t, p)
  }

  lemma ZerosSame(m: Marks, n: Marks, currency: string)
    requires Reordered(m, n) && Clear(m, currency)
    ensures SameZeros(m, n, currency)
  {
    forall t, p
      ensures RequiredZero(m, currency, t, p) == RequiredZero(n, currency, t, p)
    {
      SelectSame(m, n, currency, p);
      assert Scalar(m, currency, p) == Scalar(n, currency, p);
    }
  }

  lemma ShiftedReorder(m: Marks, n: Marks, currency: string, tenor: Option<string>, a: real)
    requires Reordered(m, n)
    ensures Reordered(ShiftRates(m, currency, tenor, a), ShiftRates(n, currency, tenor, a))
  {
    BumpPermuted(m.curves, n.curves, currency, tenor, a);
  }

  lemma {:induction false} BumpPermuted(a: seq<NamedCurve>, b: seq<NamedCurve>, currency: string, tenor: Option<string>, amount: real)
    requires multiset(a) == multiset(b)
    ensures multiset(BumpCurves(a, currency, tenor, amount)) == multiset(BumpCurves(b, currency, tenor, amount))
    decreases |a|
  {
    if a == [] {
      assert |multiset(b)| == 0;
      assert b == [];
    } else {
      var k := PermutedHead(a, b);
      BumpPermuted(a[1..], b[..k] + b[k + 1..], currency, tenor, amount);
      BumpJoin([a[0]], a[1..], currency, tenor, amount);
      BumpJoin(b[..k], b[k + 1..], currency, tenor, amount);
      BumpJoin(b[..k] + [a[0]], b[k + 1..], currency, tenor, amount);
      BumpJoin(b[..k], [a[0]], currency, tenor, amount);
    }
  }

  lemma BumpJoin(a: seq<NamedCurve>, b: seq<NamedCurve>, currency: string, tenor: Option<string>, amount: real)
    ensures BumpCurves(a + b, currency, tenor, amount) == BumpCurves(a, currency, tenor, amount) + BumpCurves(b, currency, tenor, amount)
  {
  }

  lemma {:induction false} PreferredTypeShifted(curves: seq<YieldCurve>, preferProjection: bool, a: real)
    requires curves != []
    ensures ShiftedCurves(curves, None, a) != [] && PreferredType(ShiftedCurves(curves, None, a), preferProjection) == PreferredType(curves, preferProjection)
  {
    FirstShifted(curves, Projection, None, a);
    FirstShifted(curves, Discount, None, a);
  }

  /** A parallel shock leaves no more choice between curves than there was. */
  lemma ShiftStaysClear(m: Marks, currency: string, preferProjection: bool, a: real)
    requires OneCurveEach(m, currency, preferProjection)
    ensures OneCurveEach(ShiftRates(m, currency, None, a), currency, preferProjection)
  {
    CandidatesShifted(m.curves, currency, None, a);
    ClearCandidates(Candidates(m.curves, currency), preferProjection, a);
  }

  lemma ClearCandidates(candidates: Result<seq<YieldCurve>, string>, preferProjection: bool, a: real)
    requires ClearChoice(candidates, preferProjection)
    ensures ClearChoice(ShiftedCandidates(candidates, None, a), preferProjection)
  {
    if candidates.Ok? && candidates.value != [] {
      UnambiguousShifted(candidates.value, preferProjection, a);
    }
  }

  lemma UnambiguousShifted(curves: seq<YieldCurve>, preferProjection: bool, a: real)
    requires curves != [] && Unambiguous(curves, preferProjection)
    ensures ShiftedCurves(curves, None, a) != [] && Unambiguous(ShiftedCurves(curves, None, a), preferProjection)
  {
    var shifted := ShiftedCurves(curves, None, a);
    PreferredTypeShifted(curves, preferProjection, a);
    forall x, y | x in shifted && y in shifted && x.curveType == y.curveType == PreferredType(shifted, preferProjection)
      ensures x == y
    {
      var i :| 0 <= i < |shifted| && shifted[i] == x;
      var j :| 0 <= j < |shifted| && shifted[j] == y;
      assert curves[i] in curves && curves[j] in curves;
      assert curves[i] == curves[j];
    }
  }

  // ----- equal keys, equal values -----

  /** Everything a rate family asks of two markets comes back the same, before and after its own bump. */
  ghost predicate Agree(m: Marks, n: Marks, currency: string) {
    && Reordered(m, n) && SameZeros(m, n, currency)
    && Select(m, currency, false) == Select(n, currency, false)
  }

  lemma ClearAgrees(m: Marks, n: Marks, currency: string)
    requires Reordered(m, n) && Clear(m, currency)
    ensures Agree(m, n, currency)
    ensures forall a :: Agree(ShiftRates(m, currency, None, a), ShiftRates(n, currency, None, a), currency)
  {
    ZerosSame(m, n, currency);
    SelectSame(m, n, currency, false);
    forall a
      ensures Agree(ShiftRates(m, currency, None, a), ShiftRates(n, currency, None, a), currency)
    {
      ShiftedReorder(m, n, currency, None, a);
      ShiftStaysClear(m, currency, false, a);
      ShiftStaysClear(m, currency, true, a);
      ZerosSame(ShiftRates(m, currency, None, a), ShiftRates(n, currency, None, a), currency);
      SelectSame(ShiftRates(m, currency, None, a), ShiftRates(n, currency, None, a), currency, false);
    }
  }

  lemma BondSame(m: Marks, n: Marks, face: real, quantity: real, t: real, currency: string, maths: Maths)
    requires Reordered(m, n) && Clear(m, currency)
    ensures BondValue(m, face, quantity, t, currency, maths) == BondValue(n, face, quantity, t, currency, maths)
  {
    ClearAgrees(m, n, currency);
    ParallelBump(m, currency);
    ParallelBump(n, currency);
    BondPvSame(m, n, face, quantity, t, currency, maths);
    BondPvSame(ShiftRates(m, currency, None, ONE_BP), ShiftRates(n, currency, None, ONE_BP), face, quantity, t, currency, maths);
  }

  lemma DiscountSame(m: Marks, n: Marks, currency: string, t: real, exp: real -> real)
    requires Select(m, currency, false) == Select(n, currency, false)
    ensures DiscountFactor(m, currency, t, exp) == DiscountFactor(n, currency, t, exp)
  {
  }

  lemma BondPvSame(m: Marks, n: Marks, face: real, quantity: real, t: real, currency: string, maths: Maths)
    requires Agree(m, n, currency)
    ensures BondPv(m, face, quantity, t, currency, maths) == BondPv(n, face, quantity, t, currency, maths)
  {
    DiscountSame(m, n, currency, t, maths.exp);
    assert RequiredZero(m, currency, t, false) == RequiredZero(n, currency, t, false);
  }

  lemma SwapSame(m: Marks, n: Marks, currency: string, notional: real, t: real, fixedRate: real, payFixed: bool, duration: real)
    requires Reordered(m, n) && Clear(m, currency)
    ensures SwapValue(m, currency, notional, t, fixedRate, payFixed, duration) == SwapValue(n, currency, notional, t, fixedRate, payFixed, duration)
  {
    ClearAgrees(m, n, currency);
    ParallelBump(m, currency);
    ParallelBump(n, currency);
    var x, y := ShiftRates(m, currency, None, ONE_BP), ShiftRates(n, currency, None, ONE_BP);
    assert RequiredZero(m, currency, t, false) == RequiredZero(n, currency, t, false);
    assert RequiredZero(x, currency, t, false) == RequiredZero(y, currency, t, false);
  }

  lemma CapletsSame(m: Marks, n: Marks, s: Builtin.Strip, cap: bool, maths: Maths)
    requires s.strike > 0.0 && SameZeros(m, n, s.currency)
    ensures Caplets(m, s, cap, maths) == Caplets(n, s, cap, maths)
  {
    forall i | 0 <= i < s.periods
      ensures Caplets(m, s, cap, maths)[i] == Caplets(n, s, cap, maths)[i]
    {
      SamePeriod(m, n, s, i, cap, maths);
    }
  }

  lemma SamePeriod(m: Marks, n: Marks, s: Builtin.Strip, i: nat, cap: bool, maths: Maths)
    requires s.strike > 0.0 && SameZeros(m, n, s.currency) && i < s.periods
    ensures Caplets(m, s, cap, maths)[i] == Caplets(n, s, cap, maths)[i]
  {
    CapletSame(m, n, s, i + 1, cap, maths);
  }

  lemma CapletSame(m: Marks, n: Marks, s: Builtin.Strip, i: nat, cap: bool, maths: Maths)
    requires s.strike > 0.0 && SameZeros(m, n, s.currency)
    ensures Caplet(m, s, i, cap, maths) == Caplet(n, s, i, cap, maths)
  {
    assert RequiredZero(m, s.currency, ExpiryTime(s, i), true) == RequiredZero(n, s.currency, ExpiryTime(s, i), true);
    assert RequiredZero(m, s.currency, PaymentTime(s, i), false) == RequiredZero(n, s.currency, PaymentTime(s, i), false);
  }

  lemma CapFloorSame(m: Marks, n: Marks, currency: string, k: real, t: real, frequency: nat, cap: bool, forward: real, shift: real, maths: Maths)
    requires Reordered(m, n) && SameZeros(m, n, currency) && k > 0.0
    ensures CapFloorUnits(m, currency, k, t, frequency, cap, forward, shift, maths) == CapFloorUnits(n, currency, k, t, frequency, cap, forward, shift, maths)
  {
    var vol := OptionVol(m.volSurfaces, m.irVols, currency, t, k, forward);
    if vol.Ok? {
      CapletsSame(m, n, StripOf(currency, k, t, frequency, vol.value, shift), cap, maths);
    }
  }

  lemma SwaptionSame(m: Marks, n: Marks, currency: string, k: real, t: real, tenor: real, frequency: nat, payer: bool, forward: real, shift: real, maths: Maths)
    requires Reordered(m, n) && SameZeros(m, n, currency) && k > 0.0
    ensures SwaptionUnits(m, currency, k, t, tenor, frequency, payer, forward, shift, maths)
         == SwaptionUnits(n, currency, k, t, tenor, frequency, payer, forward, shift, maths)
  {
    assert RequiredZero(m, currency, t, true) == RequiredZero(n, currency, t, true);
    assert RequiredZero(m, currency, t + tenor, false) == RequiredZero(n, currency, t + tenor, false);
  }

  /** The currency whose curves a family reads. */
  function CurveCurrency(e: Economics): Option<string> {
    match e
    case Bond(_, _, _, _, c) => Some(c)
    case Swap(c, _, _, _, _) => Some(c)
    case IrFuture(c, _, _, _) => Some(c)
    case CapFloor(c, _, _, _, _, _, _) => Some(c)
    case Swaption(c, _, _, _, _, _, _, _) => Some(c)
    case _ => None
  }

  ghost predicate ClearFor(e: Economics, m: Marks) {
    CurveCurrency(e).Some? ==> Clear(m, CurveCurrency(e).value)
  }

  lemma EquityOverlaySame(e: Economics, m: Marks, n: Marks)
    requires Contractual(e) && Reordered(m, n) && (IsEquityFamily(e) || e.FxForward? || e.FxOption?)
    ensures Overlay(e, m) == Overlay(e, n)
  {
  }

  lemma RatesOverlaySame(e: Economics, m: Marks, n: Marks)
    requires Contractual(e) && Reordered(m, n) && CurveCurrency(e).Some? && Clear(m, CurveCurrency(e).value)
    ensures Overlay(e, m) == Overlay(e, n)
  {
    var c := CurveCurrency(e).value;
    ZerosSame(m, n, c);
    var t := if e.Swaption? then e.optionMaturity else e.maturity;
    assert RequiredZero(m, c, t, false) == RequiredZero(n, c, t, false);
    assert RequiredZero(m, c, t, true) == RequiredZero(n, c, t, true);
    if e.Swaption? {
      assert RequiredZero(m, c, t + e.swapTenor, false) == RequiredZero(n, c, t + e.swapTenor, false);
    }
  }

  lemma EquityHandleSame(e: Economics, duration: real, mark: real, m: Marks, n: Marks, maths: Maths)
    requires Contractual(e) && Reordered(m, n) && (IsEquityFamily(e) || e.FxForward? || e.FxOption?)
    ensures Handle(e, duration, mark, m, maths) == Handle(e, duration, mark, n, maths)
  {
  }

  lemma RatesHandleSame(e: Economics, duration: real, mark: real, m: Marks, n: Marks, maths: Maths)
    requires Contractual(e) && Reordered(m, n) && CurveCurrency(e).Some? && Clear(m, CurveCurrency(e).value)
    ensures Handle(e, duration, mark, m, maths) == Handle(e, duration, mark, n, maths)
  {
    var c := CurveCurrency(e).value;
    ZerosSame(m, n, c);
    match e {
      case Bond(_, face, quantity, t, _) => BondSame(m, n, face, quantity, t, c, maths);
      case Swap(_, notional, t, fixedRate, payFixed) => SwapSame(m, n, c, notional, t, fixedRate, payFixed, duration);
      case IrFuture(_, _, _, t) => assert RequiredZero(m, c, t, true) == RequiredZero(n, c, t, true);
      case CapFloor(_, _, _, k, t, cap, f) =>
        CapFloorSame(m, n, c, k, t, f, cap, mark, 0.0, maths);
        CapFloorSame(m, n, c, k, t, f, cap, mark, ONE_BP, maths);
      case Swaption(_, _, _, k, t, tenor, payer, f) =>
        SwaptionSame(m, n, c, k, t, tenor, f, payer, mark, 0.0, maths);
        SwaptionSame(m, n, c, k, t, tenor, f, payer, mark, ONE_BP, maths);
    }
  }

  /** One trade, one content: the value does not depend on how the market orders its curves. */
  lemma ReorderedValue(p: Position, m: Marks, n: Marks, maths: Maths)
    requires Contractual(p.economics) && Reordered(m, n) && ClearFor(p.economics, m)
    ensures Value(p, m, maths) == Value(p, n, maths)
  {
    if TermsOf(p).Ok? {
      PricedSame(TermsOf(p).value.economics, p.duration, m, n, maths);
    }
  }

  lemma PricedSame(e: Economics, duration: real, m: Marks, n: Marks, maths: Maths)
    requires Contractual(e) && Reordered(m, n) && ClearFor(e, m)
    ensures Priced(e, duration, m, maths) == Priced(e, duration, n, maths)
  {
    if CurveCurrency(e).Some? {
      RatesOverlaySame(e, m, n);
    } else {
      EquityOverlaySame(e, m, n);
    }
    var mark := Overlay(e, m);
    if mark.Ok? && CurveCurrency(e).Some? {
      RatesHandleSame(e, duration, mark.value, m, n, maths);
    } else if mark.Ok? {
      EquityHandleSame(e, duration, mark.value, m, n, maths);
    }
  }

  /** What must agree beside the key: the settlement currency of futures and options, the duration of swaps. */
  predicate SameUnkeyed(p: Position, q: Position) {
    match p.economics
    case EquityFuture(_, _, _, _, c, _) => q.economics.EquityFuture? && Strings.Strip(c) == Strings.Strip(q.economics.currency)
    case EuropeanOption(_, _, _, _, _, c, _) => q.economics.EuropeanOption? && Strings.Strip(c) == Strings.Strip(q.economics.currency)
    case Swap(_, _, _, _, _) => p.duration == q.duration
    case _ => true
  }

  lemma ErasedEqual(e: Economics, f: Economics)
    requires IsEquityFamily(e) && IsEquityFamily(f) && WithCurrency(e, "") == WithCurrency(f, "")
    ensures e == WithCurrency(f, e.currency)
  {
  }

  /** The same trade key leaves only the currency of equity families and the duration open. */
  lemma SameTradeKey(p: Position, q: Position)
    requires SameTrade(p, q)
    ensures p.header == q.header
    ensures !IsEquityFamily(p.economics) ==> p.economics == q.economics
    ensures IsEquityFamily(p.economics) ==>
      (IsEquityFamily(q.economics)
       && TermsOf(p).value.economics == WithCurrency(TermsOf(q).value.economics, Strings.Strip(p.economics.currency)))
  {
    var e, f := TermsOf(p).value.economics, TermsOf(q).value.economics;
    assert IsEquityFamily(e) == IsEquityFamily(p.economics) && IsEquityFamily(f) == IsEquityFamily(q.economics);
    if IsEquityFamily(e) && IsEquityFamily(f) {
      ErasedEqual(e, f);
    }
  }

  lemma SameTerms(p: Position, q: Position, m: Marks, maths: Maths)
    requires Contractual(p.economics) && Contractual(q.economics) && SameTrade(p, q) && SameUnkeyed(p, q)
    ensures Value(p, m, maths) == Value(q, m, maths)
  {
    SameTradeKey(p, q);
    PricedAlike(TermsOf(p).value.economics, TermsOf(q).value.economics, p.duration, q.duration, m, maths);
  }

  /** The currency of a cash equity is not read, nor the duration of anything but a swap. */
  lemma PricedAlike(e: Economics, f: Economics, d: real, d': real, m: Marks, maths: Maths)
    requires Contractual(e) && Contractual(f)
    requires e == f || (e.Equity? && f.Equity? && WithCurrency(e, "") == WithCurrency(f, ""))
    requires e.Swap? ==> d == d'
    ensures Priced(e, d, m, maths) == Priced(f, d', m, maths)
  {
    if e.Equity? {
      assert e.symbol == f.symbol && e.quantity == f.quantity;
    }
  }

  /**
   * Equal keys give equal values for every family, where the curves of the currency leave no choice; futures and
   * options need their currency, and swaps their duration, to agree as well.
   */
  lemma KeyDecidesValue(p: Position, s: Snapshot, q: Position, t: Snapshot, maths: Maths)
    requires Contractual(p.economics) && Contractual(q.economics)
    requires DistinctCurves(s.marks.curves) && DistinctCurves(t.marks.curves)
    requires KeyFor(p, s).Ok? && KeyFor(p, s) == KeyFor(q, t)
    requires ClearFor(p.economics, s.marks) && SameUnkeyed(p, q)
    ensures Value(p, s.marks, maths) == Value(q, t.marks, maths)
  {
    SameContent(s.marks, t.marks);
    ReorderedValue(p, s.marks, t.marks, maths);
    SameTerms(p, q, t.marks, maths);
  }

  // ----- exactly when -----

  const NO_MARKS: Marks := Marks(map[], map[], map[], map[], map[], map[], map[], map[], map[], map[], map[], [], map[])

  /** A market with the marks of one equity name and one settlement rate. */
  function OneCurrencyMarket(symbol: string, currency: string): Marks {
    NO_MARKS.(equitySpots := map[symbol := 1.0], equityVols := map[symbol := 1.0], dividendYields := map[symbol := 0.0],
              rates := map[currency := 0.0])
  }

  lemma NeedsItsCurrency(e: Economics, currency: string, maths: Maths)
    requires Contractual(e) && (e.EquityFuture? || e.EuropeanOption?) && e.currency != currency
    ensures Overlay(e, OneCurrencyMarket(e.symbol, currency)) == Err("missing market data")
  {
  }

  lemma HasItsCurrency(e: Economics, duration: real, maths: Maths)
    requires Contractual(e) && (e.EquityFuture? || e.EuropeanOption?)
    ensures var m := OneCurrencyMarket(e.symbol, e.currency);
      Overlay(e, m).Ok? && Handle(e, duration, Overlay(e, m).value, m, maths) != Err("missing market data")
  {
    assert |"missing market data"| == 19 && |"division by zero"| == 16 && |"math domain error"| == 17;
  }

  /** Two futures or options with one trade key have the same value on every market exactly when they settle in one currency. */
  lemma CurrencyMattersExactly(p: Position, q: Position, maths: Maths)
    requires Contractual(p.economics) && Contractual(q.economics) && SameTrade(p, q)
    requires p.economics.EquityFuture? || p.economics.EuropeanOption?
    ensures (forall m :: Value(p, m, maths) == Value(q, m, maths)) <==> SameUnkeyed(p, q)
  {
    SameTradeKey(p, q);
    if SameUnkeyed(p, q) {
      forall m
        ensures Value(p, m, maths) == Value(q, m, maths)
      {
        SameTerms(p, q, m, maths);
      }
    } else {
      var e, f := TermsOf(p).value.economics, TermsOf(q).value.economics;
      var m := OneCurrencyMarket(e.symbol, e.currency);
      HasItsCurrency(e, p.duration, maths);
      NeedsItsCurrency(f, e.currency, maths);
      assert Value(p, m, maths) != Value(q, m, maths);
    }
  }

  /** A market with one scalar rate. */
  function OneRateMarket(currency: string, rate: real): Marks {
    NO_MARKS.(rates := map[currency := rate])
  }

  lemma OneRateZero(currency: string, rate: real, t: real)
    ensures RequiredZero(OneRateMarket(currency, rate), currency, t, false) == Ok(rate)
  {
  }

  lemma SwapOnOneRate(currency: string, notional: real, t: real, fixedRate: real, payFixed: bool, duration: real, annuity: real)
    requires annuity == notional * duration
    ensures SwapValue(OneRateMarket(currency, fixedRate + 1.0), currency, notional, t, fixedRate, payFixed, duration).Ok?
    ensures SwapValue(OneRateMarket(currency, fixedRate + 1.0), currency, notional, t, fixedRate, payFixed, duration).value.marketValue
      == if payFixed then annuity else -annuity
  {
    var m := OneRateMarket(currency, fixedRate + 1.0);
    OneRateZero(currency, fixedRate + 1.0, t);
    ParallelBump(m, currency);
    ParallelShockMovesZero(m, currency, t, false, ONE_BP);
    UnitSpread(fixedRate, payFixed, annuity);
  }

  lemma UnitSpread(fixedRate: real, payFixed: bool, annuity: real)
    ensures SwapPvAt(fixedRate + 1.0, Sign(payFixed), fixedRate, annuity) == if payFixed then annuity else -annuity
  {
    assert fixedRate + 1.0 - fixedRate == 1.0;
  }

  function MarkedAt(r: Result<PositionValue, string>): Option<real> {
    if r.Ok? then Some(r.value.valuation.marketValue) else None
  }

  lemma SwapMark(p: Position, annuity: real, maths: Maths)
    requires Contractual(p.economics) && p.economics.Swap? && annuity == p.economics.notional * p.duration
    ensures MarkedAt(Value(p, OneRateMarket(p.economics.currency, p.economics.fixedRate + 1.0), maths)) == Some(if p.economics.payFixed then annuity else -annuity)
  {
    match p.economics
    case Swap(c, notional, t, fixedRate, payFixed) =>
      SwapOnOneRate(c, notional, t, fixedRate, payFixed, p.duration, annuity);
      OneRateZero(c, fixedRate + 1.0, t);
  }

  lemma AnnuitiesDiffer(notional: real, d: real, e: real) returns (x: real, y: real)
    requires notional > 0.0 && d != e
    ensures x == notional * d && y == notional * e && x != y
  {
    x, y := notional * d, notional * e;
    if x == y {
      MulCancelEq(d, e, notional);
    }
  }

  lemma DurationShows(p: Position, q: Position, m: Marks, maths: Maths)
    requires Contractual(p.economics) && p.economics.Swap? && q.economics == p.economics && p.duration != q.duration
    requires m == OneRateMarket(p.economics.currency, p.economics.fixedRate + 1.0)
    ensures MarkedAt(Value(p, m, maths)) != MarkedAt(Value(q, m, maths))
  {
    var notional := p.economics.notional;
    var x, y := AnnuitiesDiffer(notional, p.duration, q.duration);
    SwapMark(p, x, maths);
    SwapMark(q, y, maths);
  }

  /** Two swaps with one trade key have the same value on every market exactly when they have one duration. */
  lemma DurationMattersExactly(p: Position, q: Position, maths: Maths)
    requires Contractual(p.economics) && p.economics.Swap? && q.economics == p.economics && q.header == p.header
    ensures TermsOf(p) == TermsOf(q)
    ensures (forall m :: Value(p, m, maths) == Value(q, m, maths)) <==> p.duration == q.duration
  {
    if p.duration == q.duration {
      assert p == q;
    } else {
      DurationShows(p, q, OneRateMarket(p.economics.currency, p.economics.fixedRate + 1.0), maths);
    }
  }

  // ----- the cache in front of the builtin engine -----

  datatype Request = Request(position: Position, market: Snapshot)

  ghost function Engine(maths: Maths): Request -> Result<PositionValue, string> {
    (r: Request) => if Contractual(r.position.economics) then Value(r.position, r.market.marks, maths) else Err("invalid position")
  }

  function RequestKey(): Request -> Result<ValuationKey, string> {
    (r: Request) => KeyFor(r.position, r.market)
  }

  ghost predicate ClearRequest(r: Request) {
    Contractual(r.position.economics) && DistinctCurves(r.market.marks.curves) && ClearFor(r.position.economics, r.market.marks)
  }

  /** What a caller must keep to: markets that are dictionaries with clear curves, and one currency and duration per trade key. */
  ghost predicate Settled(universe: iset<Request>) {
    && (forall r :: r in universe ==> ClearRequest(r))
    && (forall a, b :: a in universe && b in universe && SameTrade(a.position, b.position) ==> SameUnkeyed(a.position, b.position))
  }

  /** Then the pricing cache, with any threads, evictions and clears, answers as the engine would. */
  lemma CacheIsTransparent(universe: iset<Request>, maths: Maths, maxsize: nat)
    requires Settled(universe) && maxsize >= 1
    ensures Transparent(Setup(Engine(maths), RequestKey(), maxsize), universe)
  {
    var setup := Setup(Engine(maths), RequestKey(), maxsize);
    forall a | a in universe && setup.keyOf(a).Err?
      ensures setup.inner(a) == Err(setup.keyOf(a).error)
    {
    }
    forall a, b | a in universe && b in universe && setup.keyOf(a).Ok? && setup.keyOf(a) == setup.keyOf(b) && setup.inner(a).Ok?
      ensures setup.inner(b) == setup.inner(a)
    {
      KeyDecidesValue(a.position, a.market, b.position, b.market, maths);
    }
    TransparentExactly(setup, universe);
  }
}
