/**
 * What forgetting the order of the curve dictionary costs: the valuation key sorts it, the curve selection walks it
 * (pricing/cache.py, pricing/curve_rates.py).
 */
module CurveOrder {
  import opened Wrappers
  import opened RealMath
  import opened Curves
  import opened Snapshots
  import opened CurveRates
  import opened CurveCache
  import opened HistoricalEngine
  import opened Builtin
  import opened ValuationKeys

  predicate Returnable(curves: seq<YieldCurve>, x: YieldCurve, preferProjection: bool) {
    curves != [] && x in curves && x.curveType == PreferredType(curves, preferProjection)
  }

  /** Every curve that some order could return gives the same zero at t. */
  ghost predicate ZerosAgree(candidates: Result<seq<YieldCurve>, string>, t: real, preferProjection: bool)
    requires candidates.Ok? ==> forall c :: c in candidates.value ==> ValidNodes(c.nodes)
  {
    candidates.Ok? && candidates.value != [] ==>
      forall x, y :: Returnable(candidates.value, x, preferProjection) && Returnable(candidates.value, y, preferProjection) ==>
        ZeroAt(x, t) == ZeroAt(y, t)
  }

  ghost predicate Agreed(m: Marks, currency: string, t: real, preferProjection: bool) {
    CandidatesValid(m.curves, currency);
    ZerosAgree(Candidates(m.curves, currency), t, preferProjection)
  }

  ghost predicate ZeroIgnoresOrder(m: Marks, currency: string, t: real, preferProjection: bool) {
    forall order :: multiset(order) == multiset(m.curves) ==>
      RequiredZero(m.(curves := order), currency, t, preferProjection) == RequiredZero(m, currency, t, preferProjection)
  }

  /** The curve picked from permuted candidates is one of those the first order could have returned. */
  lemma PickAgrees(a: Result<seq<YieldCurve>, string>, b: Result<seq<YieldCurve>, string>, keyed: Result<Option<YieldCurve>, string>,
                   scalar: Option<real>, t: real, preferProjection: bool)
    requires a.Ok? ==> forall c :: c in a.value ==> ValidNodes(c.nodes)
    requires SameCandidates(a, b) && ZerosAgree(a, t, preferProjection) && ValidCurve(keyed)
    ensures ValidCurve(PickCurve(a, keyed, preferProjection)) && ValidCurve(PickCurve(b, keyed, preferProjection))
    ensures Resolve(PickCurve(a, keyed, preferProjection), scalar, t) == Resolve(PickCurve(b, keyed, preferProjection), scalar, t)
  {
    if a.Ok? && a.value != [] {
      TypePermuted(a.value, b.value, preferProjection);
      PreferredHasType(a.value, preferProjection);
      PreferredHasType(b.value, preferProjection);
      assert Preferred(b.value, preferProjection).value in multiset(a.value);
    } else if a.Ok? {
      assert |multiset(b.value)| == 0;
      assert b.value == [];
    }
  }

  lemma AgreedIgnoresOrder(m: Marks, currency: string, t: real, preferProjection: bool, order: seq<NamedCurve>)
    requires Agreed(m, currency, t, preferProjection) && multiset(order) == multiset(m.curves)
    ensures RequiredZero(m.(curves := order), currency, t, preferProjection) == RequiredZero(m, currency, t, preferProjection)
  {
    CandidatesValid(m.curves, currency);
    CandidatesPermuted(m.curves, order, currency);
    assert Scalar(m.(curves := order), currency, preferProjection) == Scalar(m, currency, preferProjection);
    PickAgrees(Candidates(m.curves, currency), Candidates(order, currency), FromKeyRates(m.keyRates, currency),
               Scalar(m, currency, preferProjection), t, preferProjection);
  }

  /** An order in which the zero is that of x. */
  lemma ZeroOfSomeOrder(m: Marks, currency: string, t: real, preferProjection: bool, x: YieldCurve) returns (order: seq<NamedCurve>)
    requires Candidates(m.curves, currency).Ok? && x in Candidates(m.curves, currency).value
    requires x.curveType == PreferredType(Candidates(m.curves, currency).value, preferProjection)
    ensures multiset(order) == multiset(m.curves) && ValidNodes(x.nodes)
    ensures RequiredZero(m.(curves := order), currency, t, preferProjection) == ZeroAt(x, t)
  {
    CandidatesValid(m.curves, currency);
    order := SomeOrderReturns(m.curves, currency, preferProjection, x);
    SelectOf(m, order, currency, preferProjection, x);
  }

  /** The resolved zero ignores the order of the dictionary exactly when the curves it could come from agree at that maturity. */
  lemma ZeroIgnoresOrderExactly(m: Marks, currency: string, t: real, preferProjection: bool)
    ensures ZeroIgnoresOrder(m, currency, t, preferProjection) <==> Agreed(m, currency, t, preferProjection)
  {
    if Agreed(m, currency, t, preferProjection) {
      forall order | multiset(order) == multiset(m.curves)
        ensures RequiredZero(m.(curves := order), currency, t, preferProjection) == RequiredZero(m, currency, t, preferProjection)
      {
        AgreedIgnoresOrder(m, currency, t, preferProjection, order);
      }
    } else {
      CandidatesValid(m.curves, currency);
      var candidates := Candidates(m.curves, currency).value;
      var x, y :| Returnable(candidates, x, preferProjection) && Returnable(candidates, y, preferProjection) && ZeroAt(x, t) != ZeroAt(y, t);
      var p := ZeroOfSomeOrder(m, currency, t, preferProjection, x);
      var q := ZeroOfSomeOrder(m, currency, t, preferProjection, y);
    }
  }

  // ----- a family that reads one zero -----

  lemma QuoteGapShows(f: real, g: real, quoted: real, unit: real)
    requires unit != 0.0 && f != g
    ensures unit * (quoted - f) * 10000.0 != unit * (quoted - g) * 10000.0
  {
    if unit * (quoted - f) == unit * (quoted - g) {
      MulCancelEq(quoted - f, quoted - g, unit);
    }
  }

  lemma IrFutureShows(f: real, g: real, quoted: real, quantity: real, pv01: real)
    requires quantity != 0.0 && pv01 > 0.0 && f != g
    ensures IrFutureAt(f, quoted, quantity, pv01) != IrFutureAt(g, quoted, quantity, pv01)
  {
    assert quantity * pv01 != 0.0;
    QuoteGapShows(f, g, quoted, quantity * pv01);
    assert IrFutureAt(f, quoted, quantity, pv01).marketValue == quantity * pv01 * (quoted - f) * 10000.0;
    assert IrFutureAt(g, quoted, quantity, pv01).marketValue == quantity * pv01 * (quoted - g) * 10000.0;
  }

  /** Its value on two orders of one content is the same exactly when the forward is. */
  lemma IrFutureReadsZero(p: Position, m: Marks, n: Marks, maths: Maths)
    requires Contractual(p.economics) && p.economics.IrFuture? && p.economics.quantity != 0.0
    requires n == m.(curves := n.curves) && p.economics.currency in m.irFutureQuotes
    ensures Value(p, m, maths) == Value(p, n, maths)
      <==> RequiredZero(m, p.economics.currency, p.economics.maturity, true) == RequiredZero(n, p.economics.currency, p.economics.maturity, true)
  {
    match p.economics
    case IrFuture(c, quantity, pv01, t) =>
      var f, g := RequiredZero(m, c, t, true), RequiredZero(n, c, t, true);
      PricedIrFuture(p, m, maths);
      PricedIrFuture(p, n, maths);
      if f.Ok? && g.Ok? && f != g {
        IrFutureShows(f.value, g.value, m.irFutureQuotes[c], quantity, pv01);
      }
  }

  lemma PricedIrFuture(p: Position, m: Marks, maths: Maths)
    requires Contractual(p.economics) && p.economics.IrFuture? && p.economics.currency in m.irFutureQuotes
    ensures Value(p, m, maths) == OfForward(p, RequiredZero(m, p.economics.currency, p.economics.maturity, true), m.irFutureQuotes[p.economics.currency])
  {
  }

  function OfForward(p: Position, forward: Result<real, string>, quoted: real): Result<PositionValue, string>
    requires p.economics.IrFuture?
  {
    var f :- forward;
    Ok(PositionValue(p.header.id, IrFutureAt(f, quoted, p.economics.quantity, p.economics.pv01)))
  }

  /**
   * All orders of one curve dictionary share the cache key, and they price a rate future alike exactly when the projection
   * curves it could read agree at its maturity.
   */
  lemma CurveOrderMattersExactly(p: Position, s: Snapshot, maths: Maths)
    requires Contractual(p.economics) && p.economics.IrFuture? && p.economics.quantity != 0.0
    requires p.economics.currency in s.marks.irFutureQuotes && DistinctCurves(s.marks.curves)
    ensures forall order :: multiset(order) == multiset(s.marks.curves) ==>
      KeyFor(p, s.(marks := s.marks.(curves := order))) == KeyFor(p, s)
    ensures (forall order :: multiset(order) == multiset(s.marks.curves) ==>
        Value(p, s.marks.(curves := order), maths) == Value(p, s.marks, maths))
      <==> Agreed(s.marks, p.economics.currency, p.economics.maturity, true)
  {
    var m, c, t := s.marks, p.economics.currency, p.economics.maturity;
    ZeroIgnoresOrderExactly(m, c, t, true);
    forall order | multiset(order) == multiset(m.curves)
      ensures KeyFor(p, s.(marks := m.(curves := order))) == KeyFor(p, s)
      ensures Value(p, m.(curves := order), maths) == Value(p, m, maths)
        <==> RequiredZero(m.(curves := order), c, t, true) == RequiredZero(m, c, t, true)
    {
      ReorderedContent(m, m.(curves := order));
      IrFutureReadsZero(p, m.(curves := order), m, maths);
    }
  }

  // ----- families that price again after a bump -----

  lemma PathIgnoresOrder(m: Marks, currency: string, preferProjection: bool, order: seq<NamedCurve>)
    requires multiset(order) == multiset(m.curves)
    ensures PathOf(m.(curves := order), currency, preferProjection) == PathOf(m, currency, preferProjection)
    ensures Select(m.(curves := order), currency, preferProjection) == Ok(None) <==> Select(m, currency, preferProjection) == Ok(None)
  {
    var a, b := Candidates(m.curves, currency), Candidates(order, currency);
    CandidatesPermuted(m.curves, order, currency);
    SamePick(a, b, FromKeyRates(m.keyRates, currency), preferProjection);
  }

  lemma SamePick(a: Result<seq<YieldCurve>, string>, b: Result<seq<YieldCurve>, string>, keyed: Result<Option<YieldCurve>, string>, preferProjection: bool)
    requires SameCandidates(a, b)
    ensures PickCurve(a, keyed, preferProjection) == Ok(None) <==> PickCurve(b, keyed, preferProjection) == Ok(None)
    ensures a.Ok? && a.value != [] <==> b.Ok? && b.value != []
    ensures !(a.Ok? && a.value != []) ==> PickCurve(a, keyed, preferProjection) == PickCurve(b, keyed, preferProjection)
  {
    if a.Ok? {
      assert |a.value| == |multiset(a.value)| == |multiset(b.value)| == |b.value|;
      PreferredIsOne(a.value, preferProjection);
      PreferredIsOne(b.value, preferProjection);
    }
  }

  lemma MoveIgnoresOrder(m: Marks, currency: string, order: seq<NamedCurve>)
    requires multiset(order) == multiset(m.curves)
    ensures RateMove(m.(curves := order), currency) == RateMove(m, currency)
  {
    PathIgnoresOrder(m, currency, false, order);
  }

  /** A value that tells zeros apart, read off one zero under every order, is the same under all of them exactly when the curves agree. */
  lemma ReaderMattersExactly<T(!new)>(value: Marks -> T, of: Result<real, string> -> T, m: Marks, currency: string, t: real, preferProjection: bool)
    requires forall y, z :: of(y) == of(z) ==> y == z
    requires forall order :: multiset(order) == multiset(m.curves) ==>
      value(m.(curves := order)) == of(RequiredZero(m.(curves := order), currency, t, preferProjection))
    ensures (forall order :: multiset(order) == multiset(m.curves) ==> value(m.(curves := order)) == value(m))
      <==> Agreed(m, currency, t, preferProjection)
  {
    ZeroIgnoresOrderExactly(m, currency, t, preferProjection);
    assert m.(curves := m.curves) == m;
  }

  ghost function Valuer(p: Position, maths: Maths): Marks -> Result<PositionValue, string> {
    (m: Marks) => if Contractual(p.economics) then Value(p, m, maths) else Err("invalid position")
  }

  // ----- swaps -----

  /** A position that keeps its terms is valued as they are priced. */
  function Named(id: string, v: Result<Valuation, string>): Result<PositionValue, string> {
    match v
    case Err(e) => Err(e)
    case Ok(w) => Ok(PositionValue(id, w))
  }

  lemma ValueIsPriced(p: Position, m: Marks, maths: Maths)
    requires Contractual(p.economics) && !IsEquityFamily(p.economics)
    ensures Value(p, m, maths) == Named(p.header.id, Priced(p.economics, p.duration, m, maths))
  {
  }

  lemma NamedAlike(id: string, v: Result<Valuation, string>, w: Result<Valuation, string>)
    ensures Named(id, v) == Named(id, w) <==> v == w
  {
  }

  /** A swap's value from the zero it reads and what the bump moves it by. */
  function SwapOfZero(zero: Result<real, string>, move: real, fixedRate: real, payFixed: bool, annuity: real): Result<Valuation, string> {
    var z :- zero;
    Repriced(SwapPvAt(z, Sign(payFixed), fixedRate, annuity), Ok(SwapPvAt(z + move, Sign(payFixed), fixedRate, annuity)))
  }

  lemma SwapFromZero(m: Marks, currency: string, t: real, fixedRate: real, payFixed: bool, annuity: real)
    requires currency in m.rates
    ensures SwapOfAnnuity(m, currency, t, fixedRate, payFixed, annuity)
         == SwapOfZero(RequiredZero(m, currency, t, false), RateMove(m, currency), fixedRate, payFixed, annuity)
  {
    ParallelBump(m, currency);
    if RequiredZero(m, currency, t, false).Ok? {
      RateAfterBump(m, currency, t);
    }
  }

  lemma PricedSwap(m: Marks, currency: string, notional: real, t: real, fixedRate: real, payFixed: bool, duration: real, annuity: real, maths: Maths)
    requires currency in m.rates && notional > 0.0 && t > 0.0 && annuity == notional * duration
    ensures Priced(Swap(currency, notional, t, fixedRate, payFixed), duration, m, maths)
         == SwapOfZero(RequiredZero(m, currency, t, false), RateMove(m, currency), fixedRate, payFixed, annuity)
  {
    SwapFromZero(m, currency, t, fixedRate, payFixed, annuity);
  }

  lemma SwapShows(y: real, z: real, payFixed: bool, fixedRate: real, annuity: real)
    requires annuity != 0.0 && SwapPvAt(y, Sign(payFixed), fixedRate, annuity) == SwapPvAt(z, Sign(payFixed), fixedRate, annuity)
    ensures y == z
  {
    var s := Sign(payFixed);
    MulCancelEq(s * (y - fixedRate), s * (z - fixedRate), annuity);
  }

  lemma SwapInjective(y: Result<real, string>, z: Result<real, string>, move: real, fixedRate: real, payFixed: bool, annuity: real)
    requires annuity != 0.0
    ensures SwapOfZero(y, move, fixedRate, payFixed, annuity) == SwapOfZero(z, move, fixedRate, payFixed, annuity) <==> y == z
  {
    if y.Ok? && z.Ok? && y != z {
      if SwapPvAt(y.value, Sign(payFixed), fixedRate, annuity) == SwapPvAt(z.value, Sign(payFixed), fixedRate, annuity) {
        SwapShows(y.value, z.value, payFixed, fixedRate, annuity);
      }
    }
  }

  lemma AnnuityNotZero(notional: real, duration: real)
    requires notional > 0.0 && duration != 0.0
    ensures notional * duration != 0.0
  {
    if notional * duration == 0.0 {
      MulCancelEq(notional, 0.0, duration);
    }
  }

  function SwapReader(id: string, move: real, fixedRate: real, payFixed: bool, annuity: real): Result<real, string> -> Result<PositionValue, string> {
    (zero: Result<real, string>) => Named(id, SwapOfZero(zero, move, fixedRate, payFixed, annuity))
  }

  lemma SwapReaderInjective(id: string, move: real, fixedRate: real, payFixed: bool, annuity: real)
    requires annuity != 0.0
    ensures forall y, z :: SwapReader(id, move, fixedRate, payFixed, annuity)(y) == SwapReader(id, move, fixedRate, payFixed, annuity)(z) ==> y == z
  {
    var of := SwapReader(id, move, fixedRate, payFixed, annuity);
    forall y, z | of(y) == of(z)
      ensures y == z
    {
      NamedAlike(id, SwapOfZero(y, move, fixedRate, payFixed, annuity), SwapOfZero(z, move, fixedRate, payFixed, annuity));
      SwapInjective(y, z, move, fixedRate, payFixed, annuity);
    }
  }

  lemma SwapRead(p: Position, m: Marks, maths: Maths, move: real, annuity: real)
    requires Contractual(p.economics) && p.economics.Swap? && p.economics.currency in m.rates
    requires move == RateMove(m, p.economics.currency) && annuity == p.economics.notional * p.duration
    ensures Valuer(p, maths)(m) == SwapReader(p.header.id, move, p.economics.fixedRate, p.economics.payFixed, annuity)
      (RequiredZero(m, p.economics.currency, p.economics.maturity, false))
  {
    ValueIsPriced(p, m, maths);
    assert Valuer(p, maths)(m) == Value(p, m, maths);
    match p.economics
    case Swap(c, notional, t, fixedRate, payFixed) => PricedSwap(m, c, notional, t, fixedRate, payFixed, p.duration, annuity, maths);
  }

  /** All orders of one dictionary price a swap alike exactly when the curves it could read agree at its maturity. */
  lemma SwapOrderMattersExactly(p: Position, m: Marks, maths: Maths)
    requires Contractual(p.economics) && p.economics.Swap? && p.economics.currency in m.rates && p.duration != 0.0
    ensures (forall order :: multiset(order) == multiset(m.curves) ==> Valuer(p, maths)(m.(curves := order)) == Valuer(p, maths)(m))
      <==> Agreed(m, p.economics.currency, p.economics.maturity, false)
  {
    var e, move, annuity := p.economics, RateMove(m, p.economics.currency), p.economics.notional * p.duration;
    AnnuityNotZero(e.notional, p.duration);
    SwapOrders(p, m, maths, move, annuity);
  }

  lemma SwapOrders(p: Position, m: Marks, maths: Maths, move: real, annuity: real)
    requires Contractual(p.economics) && p.economics.Swap? && p.economics.currency in m.rates
    requires move == RateMove(m, p.economics.currency) && annuity == p.economics.notional * p.duration != 0.0
    ensures (forall order :: multiset(order) == multiset(m.curves) ==> Valuer(p, maths)(m.(curves := order)) == Valuer(p, maths)(m))
      <==> Agreed(m, p.economics.currency, p.economics.maturity, false)
  {
    var e := p.economics;
    var of := SwapReader(p.header.id, move, e.fixedRate, e.payFixed, annuity);
    SwapReaderInjective(p.header.id, move, e.fixedRate, e.payFixed, annuity);
    forall order | multiset(order) == multiset(m.curves)
      ensures Valuer(p, maths)(m.(curves := order)) == of(RequiredZero(m.(curves := order), e.currency, e.maturity, false))
    {
      MoveIgnoresOrder(m, e.currency, order);
      SwapRead(p, m.(curves := order), maths, move, annuity);
    }
    ReaderMattersExactly(Valuer(p, maths), of, m, e.currency, e.maturity, false);
  }

  // ----- bonds -----

  /** Over the maturity on a curve, over whole days on the scalar yield. */
  function BondYears(curve: bool, t: real): real {
    if curve then t else Act365(t)
  }

  function BondAt(z: real, years: real, size: real, maths: Maths): real {
    Proceeds(size, DiscountBy(z, years, maths.exp))
  }

  function BondOfZero(zero: Result<real, string>, move: real, years: real, size: real, maths: Maths): Result<Valuation, string> {
    var z :- zero;
    Repriced(BondAt(z, years, size, maths), Ok(BondAt(z + move, years, size, maths)))
  }

  ghost predicate HasCurve(m: Marks, currency: string) {
    Select(m, currency, false) != Ok(None)
  }

  lemma BondPvOfZero(m: Marks, face: real, quantity: real, t: real, currency: string, maths: Maths, z: real, size: real)
    requires t > 0.0 && RequiredZero(m, currency, t, false) == Ok(z) && size == face * quantity
    ensures BondPv(m, face, quantity, t, currency, maths) == Ok(BondAt(z, BondYears(HasCurve(m, currency), t), size, maths))
  {
    SelectValid(m, currency, false);
    DiscountIs(Select(m, currency, false), Scalar(m, currency, false), t, maths.exp, z);
    assert DiscountFactor(m, currency, t, maths.exp) == DiscountFrom(Select(m, currency, false), t, maths.exp);
  }

  function DiscountFrom(selected: Result<Option<YieldCurve>, string>, t: real, exp: real -> real): Result<Option<real>, string>
    requires ValidCurve(selected)
  {
    var curve :- selected;
    if curve.None? then Ok(None)
    else
      var df :- DiscountAt(curve.value, t, exp);
      Ok(Some(df))
  }

  lemma DiscountIs(selected: Result<Option<YieldCurve>, string>, scalar: Option<real>, t: real, exp: real -> real, z: real)
    requires ValidCurve(selected) && t > 0.0 && Required(Resolve(selected, scalar, t)) == Ok(z)
    ensures DiscountFrom(selected, t, exp) == Ok(if selected != Ok(None) then Some(DiscountBy(z, t, exp)) else None)
  {
  }

  /** A bump leaves a curve where there was one. */
  lemma CurveStays(m: Marks, currency: string, a: real)
    ensures HasCurve(ShiftRates(m, currency, None, a), currency) == HasCurve(m, currency)
  {
    SelectShifted(m, currency, false, None, a);
  }

  lemma BondFromZero(m: Marks, face: real, quantity: real, t: real, currency: string, maths: Maths, z: real, size: real)
    requires currency in m.rates && t > 0.0 && RequiredZero(m, currency, t, false) == Ok(z) && size == face * quantity
    ensures BondValue(m, face, quantity, t, currency, maths)
         == BondOfZero(Ok(z), RateMove(m, currency), BondYears(HasCurve(m, currency), t), size, maths)
  {
    ParallelBump(m, currency);
    RateAfterBump(m, currency, t);
    CurveStays(m, currency, ONE_BP);
    BondPvOfZero(m, face, quantity, t, currency, maths, z, size);
    BondPvOfZero(ShiftRates(m, currency, None, ONE_BP), face, quantity, t, currency, maths, z + RateMove(m, currency), size);
  }

  lemma PricedBond(m: Marks, issuer: string, face: real, quantity: real, t: real, currency: string, duration: real, size: real, maths: Maths)
    requires currency in m.rates && face > 0.0 && t > 0.0 && size == face * quantity
    ensures Priced(Bond(issuer, face, quantity, t, currency), duration, m, maths)
         == BondOfZero(RequiredZero(m, currency, t, false), RateMove(m, currency), BondYears(HasCurve(m, currency), t), size, maths)
  {
    if RequiredZero(m, currency, t, false).Ok? {
      BondFromZero(m, face, quantity, t, currency, maths, RequiredZero(m, currency, t, false).value, size);
    }
  }

  ghost predicate Injective(exp: real -> real) {
    forall x, y :: exp(x) == exp(y) ==> x == y
  }

  lemma BondShows(y: real, z: real, years: real, size: real, maths: Maths)
    requires Injective(maths.exp) && years > 0.0 && size != 0.0 && BondAt(y, years, size, maths) == BondAt(z, years, size, maths)
    ensures y == z
  {
    MulCancelEq(DiscountBy(y, years, maths.exp), DiscountBy(z, years, maths.exp), size);
    MulCancelEq(-y, -z, years);
  }

  lemma BondInjective(y: Result<real, string>, z: Result<real, string>, move: real, years: real, size: real, maths: Maths)
    requires Injective(maths.exp) && years > 0.0 && size != 0.0
    ensures BondOfZero(y, move, years, size, maths) == BondOfZero(z, move, years, size, maths) <==> y == z
  {
    if y.Ok? && z.Ok? && y != z {
      if BondAt(y.value, years, size, maths) == BondAt(z.value, years, size, maths) {
        BondShows(y.value, z.value, years, size, maths);
      }
    }
  }

  lemma YearsPositive(curve: bool, t: real)
    requires t > 0.0
    ensures BondYears(curve, t) > 0.0
  {
  }

  function BondReader(id: string, move: real, years: real, size: real, maths: Maths): Result<real, string> -> Result<PositionValue, string> {
    (zero: Result<real, string>) => Named(id, BondOfZero(zero, move, years, size, maths))
  }

  lemma BondReaderInjective(id: string, move: real, years: real, size: real, maths: Maths)
    requires Injective(maths.exp) && years > 0.0 && size != 0.0
    ensures forall y, z :: BondReader(id, move, years, size, maths)(y) == BondReader(id, move, years, size, maths)(z) ==> y == z
  {
    var of := BondReader(id, move, years, size, maths);
    forall y, z | of(y) == of(z)
      ensures y == z
    {
      NamedAlike(id, BondOfZero(y, move, years, size, maths), BondOfZero(z, move, years, size, maths));
      BondInjective(y, z, move, years, size, maths);
    }
  }

  lemma BondPriced(p: Position, m: Marks, maths: Maths, move: real, years: real, size: real)
    requires Contractual(p.economics) && p.economics.Bond? && p.economics.currency in m.rates
    requires move == RateMove(m, p.economics.currency) && size == p.economics.faceValue * p.economics.quantity
    requires years == BondYears(HasCurve(m, p.economics.currency), p.economics.maturity)
    ensures Priced(p.economics, p.duration, m, maths)
         == BondOfZero(RequiredZero(m, p.economics.currency, p.economics.maturity, false), move, years, size, maths)
  {
    match p.economics
    case Bond(issuer, face, quantity, t, c) => PricedBond(m, issuer, face, quantity, t, c, p.duration, size, maths);
  }

  lemma ReadAs(p: Position, m: Marks, maths: Maths, v: Result<Valuation, string>)
    requires Contractual(p.economics) && !IsEquityFamily(p.economics) && Priced(p.economics, p.duration, m, maths) == v
    ensures Valuer(p, maths)(m) == Named(p.header.id, v)
  {
    ValueIsPriced(p, m, maths);
  }

  lemma BondRead(p: Position, m: Marks, maths: Maths, move: real, years: real, size: real)
    requires Contractual(p.economics) && p.economics.Bond? && p.economics.currency in m.rates
    requires move == RateMove(m, p.economics.currency) && size == p.economics.faceValue * p.economics.quantity
    requires years == BondYears(HasCurve(m, p.economics.currency), p.economics.maturity)
    ensures Valuer(p, maths)(m) == BondReader(p.header.id, move, years, size, maths)
      (RequiredZero(m, p.economics.currency, p.economics.maturity, false))
  {
    BondPriced(p, m, maths, move, years, size);
    ReadAs(p, m, maths, BondOfZero(RequiredZero(m, p.economics.currency, p.economics.maturity, false), move, years, size, maths));
  }

  /** And a bond, where exp takes no value twice. */
  lemma BondOrderMattersExactly(p: Position, m: Marks, maths: Maths)
    requires Contractual(p.economics) && p.economics.Bond? && p.economics.currency in m.rates && p.economics.quantity != 0.0
    requires Injective(maths.exp)
    ensures (forall order :: multiset(order) == multiset(m.curves) ==> Valuer(p, maths)(m.(curves := order)) == Valuer(p, maths)(m))
      <==> Agreed(m, p.economics.currency, p.economics.maturity, false)
  {
    var e := p.economics;
    var move, years, size := RateMove(m, e.currency), BondYears(HasCurve(m, e.currency), e.maturity), e.faceValue * e.quantity;
    YearsPositive(HasCurve(m, e.currency), e.maturity);
    AnnuityNotZero(e.faceValue, e.quantity);
    BondOrders(p, m, maths, move, years, size);
  }

  lemma BondOrders(p: Position, m: Marks, maths: Maths, move: real, years: real, size: real)
    requires Contractual(p.economics) && p.economics.Bond? && p.economics.currency in m.rates && Injective(maths.exp)
    requires move == RateMove(m, p.economics.currency) && size == p.economics.faceValue * p.economics.quantity != 0.0
    requires years == BondYears(HasCurve(m, p.economics.currency), p.economics.maturity) && years > 0.0
    ensures (forall order :: multiset(order) == multiset(m.curves) ==> Valuer(p, maths)(m.(curves := order)) == Valuer(p, maths)(m))
      <==> Agreed(m, p.economics.currency, p.economics.maturity, false)
  {
    var e := p.economics;
    var of := BondReader(p.header.id, move, years, size, maths);
    BondReaderInjective(p.header.id, move, years, size, maths);
    forall order | multiset(order) == multiset(m.curves)
      ensures Valuer(p, maths)(m.(curves := order)) == of(RequiredZero(m.(curves := order), e.currency, e.maturity, false))
    {
      PathIgnoresOrder(m, e.currency, false, order);
      MoveIgnoresOrder(m, e.currency, order);
      BondRead(p, m.(curves := order), maths, move, years, size);
    }
    ReaderMattersExactly(Valuer(p, maths), of, m, e.currency, e.maturity, false);
  }
}
