/**
 * The builtin pricer, family by family, and the marks each family needs
 * (pricing/builtin.py, pricing/snapshot_overlay.py, pricing/surface_vol.py, domain/instrument_terms.py).
 *
 * exp, log, square root, normal cdf and pdf come with the pricer; nothing is used of them but that they are functions.
 */
module Builtin {
  import opened Wrappers
  import opened Strings
  import opened RealMath
  import opened Vectors
  import opened Factors
  import opened Curves
  import opened Snapshots
  import opened CurveRates
  import opened HistoricalEngine
  import V = VolSurfaces

  datatype Maths = Maths(exp: real -> real, ln: real -> real, sqrt: real -> real, cdf: real -> real, pdf: real -> real)

  // ----- positions and their contractual terms -----

  datatype Header = Header(id: string, book: string, desk: Option<string>, strategy: Option<string>)

  datatype Economics =
    | Equity(symbol: string, quantity: real, currency: string, sector: string)
    | EquityFuture(symbol: string, quantity: real, multiplier: real, maturity: real, currency: string, sector: string)
    | EuropeanOption(symbol: string, quantity: real, strike: real, maturity: real, call: bool, currency: string, sector: string)
    | Bond(issuer: string, faceValue: real, quantity: real, maturity: real, currency: string)
    | Swap(currency: string, notional: real, maturity: real, fixedRate: real, payFixed: bool)
    | FxForward(pair: string, notionalBase: real, strike: real, maturity: real)
    | FxOption(pair: string, notionalBase: real, strike: real, maturity: real, call: bool)
    | IrFuture(currency: string, quantity: real, pv01: real, maturity: real)
    | CapFloor(currency: string, notional: real, quantity: real, strike: real, maturity: real, cap: bool, frequency: nat)
    | Swaption(currency: string, notional: real, quantity: real, strike: real, optionMaturity: real, swapTenor: real, payer: bool, frequency: nat)

  /** A bond or swap position also carries a duration, which is not one of its terms. */
  datatype Position = Position(header: Header, economics: Economics, duration: real)

  datatype Terms = Terms(header: Header, economics: Economics)

  predicate IsEquityFamily(e: Economics) {
    e.Equity? || e.EquityFuture? || e.EuropeanOption?
  }

  /** terms_from_position: equity families must name a settlement currency. */
  function TermsOf(p: Position): Result<Terms, string> {
    if !IsEquityFamily(p.economics) then Ok(Terms(p.header, p.economics))
    else
      var currency := Strings.Strip(p.economics.currency);
      if currency == "" then Err("position requires an explicit currency")
      else Ok(Terms(p.header, WithCurrency(p.economics, currency)))
  }

  /** The settlement currency of an equity family, replaced. */
  function WithCurrency(e: Economics, c: string): Economics
    requires IsEquityFamily(e)
  {
    match e
    case Equity(symbol, quantity, _, sector) => Equity(symbol, quantity, c, sector)
    case EquityFuture(symbol, quantity, multiplier, maturity, _, sector) => EquityFuture(symbol, quantity, multiplier, maturity, c, sector)
    case EuropeanOption(symbol, quantity, strike, maturity, call, _, sector) => EuropeanOption(symbol, quantity, strike, maturity, call, c, sector)
  }

  /** What the Position models check of their numbers. */
  predicate Contractual(e: Economics) {
    match e
    case Equity(_, _, _, _) => true
    case EquityFuture(_, _, _, t, _, _) => t > 0.0
    case EuropeanOption(_, _, _, t, _, _, _) => t > 0.0
    case Bond(_, face, _, t, _) => face > 0.0 && t > 0.0
    case Swap(_, n, t, _, _) => n > 0.0 && t > 0.0
    case FxForward(pair, _, k, t) => |pair| == 6 && k > 0.0 && t > 0.0
    case FxOption(pair, _, k, t, _) => |pair| == 6 && k > 0.0 && t > 0.0
    case IrFuture(_, _, pv01, t) => pv01 > 0.0 && t > 0.0
    case CapFloor(_, n, _, k, t, _, f) => n > 0.0 && k > 0.0 && t > 0.0 && 1 <= f <= 12
    case Swaption(_, n, _, k, t, tenor, _, f) => n > 0.0 && k > 0.0 && t > 0.0 && tenor > 0.0 && 1 <= f <= 12
  }

  // ----- marks -----

  function Mark(marks: map<string, real>, name: string): Result<real, string> {
    if name in marks then Ok(marks[name]) else Err("missing market data")
  }

  /** A surface of the name answers when the underlying is positive, whatever its asset class; else the scalar vol. */
  ghost function OptionVol(surfaces: map<string, V.Payload>, scalars: map<string, real>, name: string, t: real, strike: real, underlying: real): Result<real, string> {
    if name in surfaces && underlying > 0.0 then
      var grid := surfaces[name].grid;
      if !V.KnownGrid(grid) || grid == map[] then Err("bad surface")
      else V.VolAt(V.Points(grid), t, strike / underlying)
    else Mark(scalars, name)
  }

  function Base(pair: string): string
    requires |pair| == 6
  {
    pair[..3]
  }

  function Quote(pair: string): string
    requires |pair| == 6
  {
    pair[3..]
  }

  /** snapshot_marks_from_terms: every mark the family needs is resolved; the result is the one its handler reads back. */
  ghost function Overlay(e: Economics, m: Marks): Result<real, string>
    requires Contractual(e)
  {
    match e
    case Equity(symbol, _, _, _) => Mark(m.equitySpots, symbol)
    case EquityFuture(symbol, _, _, _, currency, _) =>
      var s :- Mark(m.equitySpots, symbol);
      var _ :- Mark(m.rates, currency);
      var _ :- Mark(m.dividendYields, symbol);
      Ok(s)
    case EuropeanOption(symbol, _, k, t, _, currency, _) =>
      var s :- Mark(m.equitySpots, symbol);
      var _ :- OptionVol(m.volSurfaces, m.equityVols, symbol, t, k, s);
      var _ :- Mark(m.rates, currency);
      var _ :- Mark(m.dividendYields, symbol);
      Ok(s)
    case Bond(_, _, _, t, currency) => RequiredZero(m, currency, t, false)
    case Swap(currency, _, t, _, _) => RequiredZero(m, currency, t, false)
    case FxForward(pair, _, _, _) =>
      var s :- Mark(m.fxSpots, pair);
      var _ :- Mark(m.rates, Quote(pair));
      var _ :- Mark(m.rates, Base(pair));
      Ok(s)
    case FxOption(pair, _, k, t, _) =>
      var s :- Mark(m.fxSpots, pair);
      var _ :- OptionVol(m.volSurfaces, m.fxVols, pair, t, k, s);
      var _ :- Mark(m.rates, Quote(pair));
      var _ :- Mark(m.rates, Base(pair));
      Ok(s)
    case IrFuture(currency, _, _, t) =>
      var forward :- RequiredZero(m, currency, t, true);
      var _ :- Mark(m.irFutureQuotes, currency);
      Ok(forward)
    case CapFloor(currency, _, _, k, t, _, _) =>
      var forward :- RequiredZero(m, currency, t, true);
      var _ :- RequiredZero(m, currency, t, false);
      var _ :- OptionVol(m.volSurfaces, m.irVols, currency, t, k, forward);
      Ok(forward)
    case Swaption(currency, _, _, k, t, tenor, _, _) =>
      var forward :- RequiredZero(m, currency, t, true);
      var _ :- RequiredZero(m, currency, t + tenor, false);
      var _ :- OptionVol(m.volSurfaces, m.irVols, currency, t, k, forward);
      Ok(forward)
  }

  // ----- arithmetic the handlers share -----

  /** round(): to the nearest integer, ties to the even one. */
  function Round(x: real): int {
    var f := x.Floor;
    var d := x - f as real;
    if d < 0.5 then f else if d > 0.5 then f + 1 else if f % 2 == 0 then f else f + 1
  }

  function AtLeastOne(n: int): (r: nat)
    ensures r >= 1
  {
    if n < 1 then 1 else n
  }

  /** _act365_fixed_years. */
  function Act365(t: real): real {
    AtLeastOne(Round(t * 365.0)) as real / 365.0
  }

  function Div(a: real, b: real): Result<real, string> {
    if b == 0.0 then Err("division by zero") else Ok(a / b)
  }

  function Log(a: real, maths: Maths): Result<real, string> {
    if a <= 0.0 then Err("math domain error") else Ok(maths.ln(a))
  }

  /** d1 of Black's formula, for a drift already times the maturity. */
  function D1(ratio: real, drift: real, sigma: real, sqrtT: real, maths: Maths): Result<real, string> {
    var l :- Log(ratio, maths);
    Div(l + drift, sigma * sqrtT)
  }

  function Drift(carry: real, sigma: real, t: real): real {
    (carry + 0.5 * sigma * sigma) * t
  }

  function Discount(rate: real, t: real, maths: Maths): real {
    maths.exp(-rate * t)
  }

  /** Black's price from the two discounted legs a and b. */
  function BlackPrice(a: real, b: real, d1: real, d2: real, call: bool, maths: Maths): real {
    if call then a * maths.cdf(d1) - b * maths.cdf(d2) else b * maths.cdf(-d2) - a * maths.cdf(-d1)
  }

  /** One unit of an option. */
  datatype Greeks = Greeks(price: real, delta: real, gamma: real, vega: real)

  /** The spot grows at the rate discounted by ds, the strike is discounted by dk. */
  function GreeksFrom(d: Result<real, string>, s: real, k: real, ds: real, dk: real, sigma: real, sqrtT: real, call: bool, maths: Maths): Result<Greeks, string> {
    var d1 :- d;
    var price := BlackPrice(s * ds, k * dk, d1, d1 - sigma * sqrtT, call, maths);
    var delta := if call then ds * maths.cdf(d1) else ds * (maths.cdf(d1) - 1.0);
    var gamma :- Div(ds * maths.pdf(d1), s * sigma * sqrtT);
    Ok(Greeks(price, delta, gamma, s * ds * maths.pdf(d1) * sqrtT))
  }

  // ----- equity and FX -----

  function EquityValue(quantity: real, price: real): Valuation {
    NO_VALUE.(marketValue := quantity * price, delta := quantity * price)
  }

  function EquityFutureValue(m: Marks, symbol: string, quantity: real, multiplier: real, t: real, currency: string, maths: Maths): Result<Valuation, string> {
    var s :- Mark(m.equitySpots, symbol);
    var r :- Mark(m.rates, currency);
    var q :- Mark(m.dividendYields, symbol);
    Ok(EquityFutureAt(s, r, q, quantity, multiplier, t, maths))
  }

  function EquityFutureAt(s: real, r: real, q: real, quantity: real, multiplier: real, t: real, maths: Maths): Valuation {
    var mv := quantity * multiplier * (s * maths.exp((r - q) * t));
    NO_VALUE.(marketValue := mv, delta := mv, dv01 := mv * t * 0.0001)
  }

  ghost function EuropeanOptionValue(m: Marks, symbol: string, quantity: real, k: real, t: real, call: bool, currency: string, maths: Maths): Result<Valuation, string>
  {
    var s :- Mark(m.equitySpots, symbol);
    var sigma :- OptionVol(m.volSurfaces, m.equityVols, symbol, t, k, s);
    var r :- Mark(m.rates, currency);
    var q :- Mark(m.dividendYields, symbol);
    EuropeanOptionAt(s, sigma, r, q, quantity, k, t, call, maths)
  }

  /** A strike of zero divides by zero, a negative one has no logarithm. */
  function EuropeanOptionAt(s: real, sigma: real, r: real, q: real, quantity: real, k: real, t: real, call: bool, maths: Maths): Result<Valuation, string> {
    var ratio :- Div(s, k);
    var d1 := D1(ratio, Drift(r - q, sigma, t), sigma, maths.sqrt(t), maths);
    var g :- GreeksFrom(d1, s, k, Discount(q, t, maths), Discount(r, t, maths), sigma, maths.sqrt(t), call, maths);
    Ok(EquityOption(quantity, g, s))
  }

  function EquityOption(quantity: real, g: Greeks, s: real): Valuation {
    NO_VALUE.(marketValue := quantity * g.price, delta := quantity * g.delta * s, gamma := quantity * g.gamma * s * s,
              vega := quantity * g.vega * 0.01)
  }

  function FxForwardValue(m: Marks, pair: string, notional: real, k: real, t: real, maths: Maths): Result<Valuation, string>
    requires |pair| == 6
  {
    var s :- Mark(m.fxSpots, pair);
    var rd :- Mark(m.rates, Quote(pair));
    var rf :- Mark(m.rates, Base(pair));
    Ok(FxForwardAt(s, rd, rf, notional, k, t, maths))
  }

  function FxForwardAt(s: real, rd: real, rf: real, notional: real, k: real, t: real, maths: Maths): Valuation {
    var forward := s * maths.exp((rd - rf) * t);
    NO_VALUE.(marketValue := notional * (forward - k) * Discount(rd, t, maths), fxDelta := notional * s)
  }

  ghost function FxOptionValue(m: Marks, pair: string, notional: real, k: real, t: real, call: bool, maths: Maths): Result<Valuation, string>
    requires |pair| == 6 && k > 0.0
  {
    var s :- Mark(m.fxSpots, pair);
    var sigma :- OptionVol(m.volSurfaces, m.fxVols, pair, t, k, s);
    var rd :- Mark(m.rates, Quote(pair));
    var rf :- Mark(m.rates, Base(pair));
    FxOptionAt(s, sigma, rd, rf, notional, k, t, call, maths)
  }

  function FxOptionAt(s: real, sigma: real, rd: real, rf: real, notional: real, k: real, t: real, call: bool, maths: Maths): Result<Valuation, string>
    requires k > 0.0
  {
    var d1 := D1(s / k, Drift(rd - rf, sigma, t), sigma, maths.sqrt(t), maths);
    var g :- GreeksFrom(d1, s, k, Discount(rf, t, maths), Discount(rd, t, maths), sigma, maths.sqrt(t), call, maths);
    Ok(FxOption(notional, g, s))
  }

  function FxOption(notional: real, g: Greeks, s: real): Valuation {
    NO_VALUE.(marketValue := notional * g.price, fxDelta := notional * g.delta * s, gamma := notional * g.gamma * s * s,
              vega := notional * g.vega * 0.01)
  }

  // ----- rates -----

  const ONE_BP := 0.0001

  /** market.bump(RateZero(currency, "PARALLEL"), 0.0001). */
  ghost function BumpedRates(m: Marks, currency: string): Result<Marks, string> {
    ApplyMarks(m, [Snapshots.Shock(RateZero(currency, "PARALLEL"), ONE_BP)])
  }

  ghost function BondPv(m: Marks, face: real, quantity: real, t: real, currency: string, maths: Maths): Result<real, string> {
    BondPvAt(DiscountFactor(m, currency, t, maths.exp), RequiredZero(m, currency, t, false), face * quantity, t, maths)
  }

  /** A curve's discount factor when there is one, else the scalar yield over whole days. */
  function BondPvAt(discount: Result<Option<real>, string>, zero: Result<real, string>, size: real, t: real, maths: Maths): Result<real, string> {
    var df :- discount;
    if df.Some? then Ok(Proceeds(size, df.value))
    else
      var y :- zero;
      Ok(Proceeds(size, DiscountBy(y, Act365(t), maths.exp)))
  }

  function Proceeds(size: real, df: real): real {
    size * df
  }

  ghost function BondValue(m: Marks, face: real, quantity: real, t: real, currency: string, maths: Maths): Result<Valuation, string> {
    var pv :- BondPv(m, face, quantity, t, currency, maths);
    var bumpedMarks :- BumpedRates(m, currency);
    Repriced(pv, BondPv(bumpedMarks, face, quantity, t, currency, maths))
  }

  /** A value and its change when priced again after the bump. */
  function Repriced(pv: real, again: Result<real, string>): Result<Valuation, string> {
    var bumped :- again;
    Ok(NO_VALUE.(marketValue := pv, dv01 := bumped - pv))
  }

  function Sign(payFixed: bool): real {
    if payFixed then 1.0 else -1.0
  }

  function SwapPvAt(rate: real, sign: real, fixedRate: real, annuity: real): real {
    sign * (rate - fixedRate) * annuity
  }

  ghost function SwapPv(m: Marks, currency: string, t: real, sign: real, fixedRate: real, annuity: real): Result<real, string> {
    var rate :- RequiredZero(m, currency, t, false);
    Ok(SwapPvAt(rate, sign, fixedRate, annuity))
  }

  /** The position's duration enters through the annuity. */
  ghost function SwapValue(m: Marks, currency: string, notional: real, t: real, fixedRate: real, payFixed: bool, duration: real): Result<Valuation, string> {
    SwapOfAnnuity(m, currency, t, fixedRate, payFixed, notional * duration)
  }

  ghost function SwapOfAnnuity(m: Marks, currency: string, t: real, fixedRate: real, payFixed: bool, annuity: real): Result<Valuation, string> {
    var pv :- SwapPv(m, currency, t, Sign(payFixed), fixedRate, annuity);
    var bumpedMarks :- BumpedRates(m, currency);
    Repriced(pv, SwapPv(bumpedMarks, currency, t, Sign(payFixed), fixedRate, annuity))
  }

  ghost function IrFutureValue(m: Marks, currency: string, quantity: real, pv01: real, t: real): Result<Valuation, string> {
    var forward :- RequiredZero(m, currency, t, true);
    var quoted :- Mark(m.irFutureQuotes, currency);
    Ok(IrFutureAt(forward, quoted, quantity, pv01))
  }

  /** Long the future: a gain when the forward falls below the quote. */
  function IrFutureAt(forward: real, quoted: real, quantity: real, pv01: real): Valuation {
    NO_VALUE.(marketValue := quantity * pv01 * (quoted - forward) * 10000.0, dv01 := -quantity * pv01)
  }

  // ----- caps, floors and swaptions -----

  /** What an optionlet or swaption is struck on. */
  datatype Strip = Strip(currency: string, strike: real, maturity: real, periods: nat, accrual: real, sigma: real, shift: real)

  datatype Unit = Unit(pv: real, vega: real)

  /** Black's value of one optionlet and the pdf of its d1. */
  function Optionlet(forward: real, k: real, sigma: real, expiry: real, long: bool, maths: Maths): Result<(real, real), string>
    requires k > 0.0
  {
    OptionletFrom(D1(forward / k, 0.5 * sigma * sigma * expiry, sigma, maths.sqrt(expiry), maths), forward, k, sigma, maths.sqrt(expiry), long, maths)
  }

  function OptionletFrom(d: Result<real, string>, forward: real, k: real, sigma: real, sqrtT: real, long: bool, maths: Maths): Result<(real, real), string> {
    var d1 :- d;
    Ok((BlackPrice(forward, k, d1, d1 - sigma * sqrtT, long, maths), maths.pdf(d1) * sqrtT))
  }

  function PaymentTime(s: Strip, i: nat): real {
    i as real * s.accrual
  }

  /** The first reset is clamped to one day. */
  function ExpiryTime(s: Strip, i: nat): real {
    Max(1.0 / 365.0, PaymentTime(s, i) - s.accrual)
  }

  /** The discounted accrual of a period. */
  function CapletWeight(d: real, s: Strip, i: nat, maths: Maths): real {
    Discount(d + s.shift, PaymentTime(s, i), maths) * s.accrual
  }

  function CapletAt(weight: real, f: real, s: Strip, i: nat, cap: bool, maths: Maths): Result<Unit, string>
    requires s.strike > 0.0
  {
    Weighted(weight, f + s.shift, Optionlet(f + s.shift, s.strike, s.sigma, ExpiryTime(s, i), cap, maths),
             "Black cap/floor pricing requires a positive forward rate")
  }

  /** An optionlet paid a number of times over; the forward must be positive. */
  function Weighted(weight: real, forward: real, optionlet: Result<(real, real), string>, message: string): Result<Unit, string> {
    if forward <= 0.0 then Err(message)
    else
      var o :- optionlet;
      Ok(Unit(weight * o.0, weight * forward * o.1))
  }

  ghost function Caplet(m: Marks, s: Strip, i: nat, cap: bool, maths: Maths): Result<Unit, string>
    requires s.strike > 0.0
  {
    var f :- RequiredZero(m, s.currency, ExpiryTime(s, i), true);
    var d :- RequiredZero(m, s.currency, PaymentTime(s, i), false);
    CapletAt(CapletWeight(d, s, i, maths), f, s, i, cap, maths)
  }

  /** One optionlet per period, from the first. */
  ghost function Caplets(m: Marks, s: Strip, cap: bool, maths: Maths): (r: seq<Result<Unit, string>>)
    requires s.strike > 0.0
    ensures |r| == s.periods
  {
    seq(s.periods, i requires 0 <= i < s.periods => Caplet(m, s, i + 1, cap, maths))
  }

  function Plus(a: Unit, b: Unit): Unit {
    Unit(a.pv + b.pv, a.vega + b.vega)
  }

  /** The sum of units, or the first failure. */
  function SumUnits(units: seq<Result<Unit, string>>): Result<Unit, string> {
    if units == [] then Ok(Unit(0.0, 0.0))
    else
      var before :- SumUnits(units[..|units| - 1]);
      var last :- units[|units| - 1];
      Ok(Plus(before, last))
  }

  function StripOf(currency: string, k: real, t: real, frequency: nat, vol: real, shift: real): Strip {
    var periods := AtLeastOne(Round(t * frequency as real));
    Strip(currency, k, t, periods, t / periods as real, Max(0.00000001, vol), shift)
  }

  ghost function CapFloorUnits(m: Marks, currency: string, k: real, t: real, frequency: nat, cap: bool, forward: real, shift: real, maths: Maths): Result<Unit, string>
    requires k > 0.0
  {
    var vol :- OptionVol(m.volSurfaces, m.irVols, currency, t, k, forward);
    var s := StripOf(currency, k, t, frequency, vol, shift);
    SumUnits(Caplets(m, s, cap, maths))
  }

  function Scaled(scale: real, unit: Unit, bumped: Unit): Valuation {
    NO_VALUE.(marketValue := scale * unit.pv, vega := scale * unit.vega * 0.01, dv01 := scale * bumped.pv - scale * unit.pv)
  }

  /** The valuation of a number of units, priced once more with the rates a basis point up. */
  function Reported(scale: real, unit: Result<Unit, string>, bumped: Result<Unit, string>): Result<Valuation, string> {
    var now :- unit;
    var after :- bumped;
    Ok(Scaled(scale, now, after))
  }

  ghost function CapFloorValue(m: Marks, currency: string, scale: real, k: real, t: real, cap: bool, frequency: nat, forward: real, maths: Maths): Result<Valuation, string>
    requires k > 0.0
  {
    Reported(scale, CapFloorUnits(m, currency, k, t, frequency, cap, forward, 0.0, maths),
             CapFloorUnits(m, currency, k, t, frequency, cap, forward, ONE_BP, maths))
  }

  /** sum(accrual * exp(...)) over the fixed leg. */
  function Annuity(n: nat, accrual: real, rate: real, start: real, maths: Maths): real {
    if n == 0 then 0.0 else Annuity(n - 1, accrual, rate, start, maths) + accrual * Discount(rate, start + n as real * accrual, maths)
  }

  ghost function SwaptionUnits(m: Marks, currency: string, k: real, t: real, tenor: real, frequency: nat, payer: bool, forwardMark: real, shift: real, maths: Maths): Result<Unit, string>
    requires k > 0.0
  {
    SwaptionFrom(OptionVol(m.volSurfaces, m.irVols, currency, t, k, forwardMark), Raised(RequiredZero(m, currency, t, true), shift),
                 LegOf(Raised(RequiredZero(m, currency, t + tenor, false), shift), tenor, frequency, t, maths), k, t, payer, maths)
  }

  function Raised(rate: Result<real, string>, shift: real): Result<real, string> {
    var r :- rate;
    Ok(r + shift)
  }

  function SwaptionFrom(vol: Result<real, string>, forward: Result<real, string>, leg: Result<real, string>, k: real, t: real, payer: bool,
                        maths: Maths): Result<Unit, string>
    requires k > 0.0
  {
    var v :- vol;
    var f :- forward;
    var annuity :- leg;
    SwaptionOf(annuity, f, k, v, t, payer, maths)
  }

  function LegOf(rate: Result<real, string>, tenor: real, frequency: nat, start: real, maths: Maths): Result<real, string> {
    var d :- rate;
    Ok(FixedLeg(tenor, frequency, d, start, maths))
  }

  /** The annuity of the underlying swap. */
  function FixedLeg(tenor: real, frequency: nat, rate: real, start: real, maths: Maths): real {
    var periods := AtLeastOne(Round(tenor * frequency as real));
    Annuity(periods, tenor / periods as real, rate, start, maths)
  }

  function SwaptionOf(annuity: real, forward: real, k: real, vol: real, t: real, payer: bool, maths: Maths): Result<Unit, string>
    requires k > 0.0
  {
    Weighted(annuity, forward, Optionlet(forward, k, Max(0.00000001, vol), t, payer, maths), "Black swaption pricing requires a positive forward swap rate")
  }

  ghost function SwaptionValue(m: Marks, currency: string, scale: real, k: real, t: real, tenor: real, payer: bool, frequency: nat, forward: real, maths: Maths): Result<Valuation, string>
    requires k > 0.0
  {
    Reported(scale, SwaptionUnits(m, currency, k, t, tenor, frequency, payer, forward, 0.0, maths),
             SwaptionUnits(m, currency, k, t, tenor, frequency, payer, forward, ONE_BP, maths))
  }

  // ----- dispatch -----

  function ScaleOf(quantity: real, notional: real): real {
    quantity * notional
  }

  ghost function Handle(e: Economics, duration: real, mark: real, m: Marks, maths: Maths): Result<Valuation, string>
    requires Contractual(e)
  {
    match e
    case Equity(_, quantity, _, _) => Ok(EquityValue(quantity, mark))
    case EquityFuture(symbol, quantity, multiplier, t, currency, _) => EquityFutureValue(m, symbol, quantity, multiplier, t, currency, maths)
    case EuropeanOption(symbol, quantity, k, t, call, currency, _) => EuropeanOptionValue(m, symbol, quantity, k, t, call, currency, maths)
    case Bond(_, face, quantity, t, currency) => BondValue(m, face, quantity, t, currency, maths)
    case Swap(currency, notional, t, fixedRate, payFixed) => SwapValue(m, currency, notional, t, fixedRate, payFixed, duration)
    case FxForward(pair, notional, k, t) => FxForwardValue(m, pair, notional, k, t, maths)
    case FxOption(pair, notional, k, t, call) => FxOptionValue(m, pair, notional, k, t, call, maths)
    case IrFuture(currency, quantity, pv01, t) => IrFutureValue(m, currency, quantity, pv01, t)
    case CapFloor(currency, notional, quantity, k, t, cap, frequency) =>
      CapFloorValue(m, currency, ScaleOf(quantity, notional), k, t, cap, frequency, mark, maths)
    case Swaption(currency, notional, quantity, k, t, tenor, payer, frequency) =>
      SwaptionValue(m, currency, ScaleOf(quantity, notional), k, t, tenor, payer, frequency, mark, maths)
  }

  ghost function Priced(e: Economics, duration: real, m: Marks, maths: Maths): Result<Valuation, string>
    requires Contractual(e)
  {
    var mark :- Overlay(e, m);
    Handle(e, duration, mark, m, maths)
  }

  datatype PositionValue = PositionValue(positionId: string, valuation: Valuation)

  /** BuiltinPricingEngine.value. */
  ghost function Value(p: Position, m: Marks, maths: Maths): Result<PositionValue, string>
    requires Contractual(p.economics)
  {
    var terms :- TermsOf(p);
    var v :- Priced(terms.economics, p.duration, m, maths);
    Ok(PositionValue(terms.header.id, v))
  }

  // ----- the loop over optionlets -----

  method ResolveZero(m: Marks, currency: string, t: real, preferProjection: bool) returns (r: Result<real, string>)
    ensures r == RequiredZero(m, currency, t, preferProjection)
  {
    var selected := SelectUncached(m, currency, preferProjection);
    SelectValid(m, currency, preferProjection);
    if selected.Err? {
      return Err(selected.error);
    }
    if selected.value.Some? {
      r := Zero(selected.value.value, t);
      return;
    }
    var scalar := Scalar(m, currency, preferProjection);
    r := if scalar.Some? then Ok(scalar.value) else Err("missing market data");
  }

  method PriceCaplet(m: Marks, s: Strip, i: nat, cap: bool, maths: Maths) returns (r: Result<Unit, string>)
    requires s.strike > 0.0
    ensures r == Caplet(m, s, i, cap, maths)
  {
    var f := ResolveZero(m, s.currency, ExpiryTime(s, i), true);
    if f.Err? {
      return Err(f.error);
    }
    var d := ResolveZero(m, s.currency, PaymentTime(s, i), false);
    if d.Err? {
      return Err(d.error);
    }
    r := CapletAt(CapletWeight(d.value, s, i, maths), f.value, s, i, cap, maths);
  }

  /** _cap_floor_components: unit_pv and unit_vega accumulated over the periods. */
  method CapFloorComponents(m: Marks, s: Strip, cap: bool, maths: Maths) returns (r: Result<Unit, string>)
    requires s.strike > 0.0
    ensures r == SumUnits(Caplets(m, s, cap, maths))
  {
    var total := Unit(0.0, 0.0);
    ghost var units := Caplets(m, s, cap, maths);
    for i := 0 to s.periods
      invariant SumUnits(units[..i]) == Ok(total)
    {
      var one := PriceCaplet(m, s, i + 1, cap, maths);
      assert one == units[i];
      SumSnoc(units, i);
      if one.Err? {
        SumFails(units, i + 1);
        return Err(one.error);
      }
      total := Plus(total, one.value);
    }
    assert units[..s.periods] == units;
    r := Ok(total);
  }

  lemma SumSnoc(units: seq<Result<Unit, string>>, i: nat)
    requires i < |units| && SumUnits(units[..i]).Ok?
    ensures SumUnits(units[..i + 1])
      == if units[i].Ok? then Ok(Plus(SumUnits(units[..i]).value, units[i].value)) else Err(units[i].error)
  {
    assert units[..i + 1][..i] == units[..i];
  }

  lemma {:induction false} SumFails(units: seq<Result<Unit, string>>, i: nat)
    requires i <= |units| && SumUnits(units[..i]).Err?
    ensures SumUnits(units) == SumUnits(units[..i])
    decreases |units|
  {
    if i < |units| {
      var rest := units[..|units| - 1];
      assert rest[..i] == units[..i];
      SumFails(rest, i);
    } else {
      assert units[..i] == units;
    }
  }

  // ----- swap DV01 -----

  lemma SwapPvMoves(rate: real, a: real, bumped: real, payFixed: bool, fixedRate: real, annuity: real, dv01: real)
    requires bumped == rate + a
    requires dv01 == SwapPvAt(bumped, Sign(payFixed), fixedRate, annuity) - SwapPvAt(rate, Sign(payFixed), fixedRate, annuity)
    ensures dv01 == Sign(payFixed) * (a * annuity)
  {
    var x := rate - fixedRate;
    assert (x + a) * annuity == x * annuity + a * annuity;
  }

  lemma ParallelBump(m: Marks, currency: string)
    ensures BumpedRates(m, currency) == if currency in m.rates then Ok(ShiftRates(m, currency, None, ONE_BP)) else Err("rate or tenor not in snapshot")
  {
    var shock := Snapshots.Shock(RateZero(currency, "PARALLEL"), ONE_BP);
    assert [shock][1..] == [];
    assert TenorOf("PARALLEL") == None;
    assert ApplyOne(m, shock) == ShockRate(m, currency, None, ONE_BP);
    if currency in m.rates {
      assert ApplyMarks(ShiftRates(m, currency, None, ONE_BP), []) == Ok(ShiftRates(m, currency, None, ONE_BP));
    }
  }

  /** How far the one-basis-point bump moves the zero rate a swap of the currency reads. */
  ghost function RateMove(m: Marks, currency: string): real {
    if Moves(PathOf(m, currency, false), currency) then ONE_BP else 0.0
  }

  lemma RateAfterBump(m: Marks, currency: string, t: real)
    requires currency in m.rates && RequiredZero(m, currency, t, false).Ok?
    ensures RequiredZero(ShiftRates(m, currency, None, ONE_BP), currency, t, false)
         == Ok(RequiredZero(m, currency, t, false).value + RateMove(m, currency))
  {
    ParallelShockMovesZero(m, currency, t, false, ONE_BP);
  }

  /** The two present values a swap's DV01 is the difference of, at rates read before and after the bump. */
  lemma SwapValueAt(m: Marks, currency: string, t: real, fixedRate: real, payFixed: bool, annuity: real, rate: real, bumped: real)
    requires currency in m.rates
    requires RequiredZero(m, currency, t, false) == Ok(rate)
    requires RequiredZero(ShiftRates(m, currency, None, ONE_BP), currency, t, false) == Ok(bumped)
    ensures SwapOfAnnuity(m, currency, t, fixedRate, payFixed, annuity).Ok?
    ensures SwapOfAnnuity(m, currency, t, fixedRate, payFixed, annuity).value.dv01
      == SwapPvAt(bumped, Sign(payFixed), fixedRate, annuity) - SwapPvAt(rate, Sign(payFixed), fixedRate, annuity)
  {
    ParallelBump(m, currency);
  }

  lemma AnnuityDv01(m: Marks, currency: string, t: real, fixedRate: real, payFixed: bool, annuity: real)
    requires SwapOfAnnuity(m, currency, t, fixedRate, payFixed, annuity).Ok?
    ensures SwapOfAnnuity(m, currency, t, fixedRate, payFixed, annuity).value.dv01 == Sign(payFixed) * (RateMove(m, currency) * annuity)
  {
    var rate, bumped, dv01 := SwapReported(m, currency, t, fixedRate, payFixed, annuity);
    SwapPvMoves(rate, RateMove(m, currency), bumped, payFixed, fixedRate, annuity, dv01);
  }

  /**
   * A swap's DV01 is exactly plus or minus its annuity, notional times duration, times the basis point the rate moved:
   * one, except where the market keeps the currency's key rates under another case and the bump does not reach them.
   */
  lemma SwapDv01(m: Marks, currency: string, notional: real, t: real, fixedRate: real, payFixed: bool, duration: real)
    requires SwapValue(m, currency, notional, t, fixedRate, payFixed, duration).Ok?
    ensures SwapValue(m, currency, notional, t, fixedRate, payFixed, duration).value.dv01
      == Sign(payFixed) * (RateMove(m, currency) * (notional * duration))
  {
    AnnuityDv01(m, currency, t, fixedRate, payFixed, notional * duration);
  }

  lemma SwapReported(m: Marks, currency: string, t: real, fixedRate: real, payFixed: bool, annuity: real) returns (rate: real, bumped: real, dv01: real)
    requires SwapOfAnnuity(m, currency, t, fixedRate, payFixed, annuity).Ok?
    ensures dv01 == SwapOfAnnuity(m, currency, t, fixedRate, payFixed, annuity).value.dv01
    ensures bumped == rate + RateMove(m, currency)
    ensures dv01 == SwapPvAt(bumped, Sign(payFixed), fixedRate, annuity) - SwapPvAt(rate, Sign(payFixed), fixedRate, annuity)
  {
    rate := SwapNeedsRates(m, currency, t, fixedRate, payFixed, annuity);
    RateAfterBump(m, currency, t);
    bumped := RequiredZero(ShiftRates(m, currency, None, ONE_BP), currency, t, false).value;
    SwapValueAt(m, currency, t, fixedRate, payFixed, annuity, rate, bumped);
    dv01 := SwapOfAnnuity(m, currency, t, fixedRate, payFixed, annuity).value.dv01;
  }

  lemma SwapNeedsRates(m: Marks, currency: string, t: real, fixedRate: real, payFixed: bool, annuity: real) returns (rate: real)
    requires SwapOfAnnuity(m, currency, t, fixedRate, payFixed, annuity).Ok?
    ensures currency in m.rates && RequiredZero(m, currency, t, false) == Ok(rate)
  {
    ParallelBump(m, currency);
    rate := RequiredZero(m, currency, t, false).value;
  }
}
