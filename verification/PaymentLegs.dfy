/** The payment dates of caps and floors, and the fixed leg under a swaption (pricing/builtin.py: _cap_floor_components, _swaption_components). */
module PaymentLegs {
  import opened Wrappers
  import opened RealMath
  import opened Vectors
  import opened Builtin
  import opened Parity
  import opened BlackBounds
  import opened AtForward

  lemma Nearest(x: real)
    ensures -0.5 <= Round(x) as real - x <= 0.5
    ensures Round(x) as real - x == 0.5 || x - Round(x) as real == 0.5 ==> Round(x) % 2 == 0
  {
  }

  lemma Steps(i: nat, accrual: real)
    ensures (i + 1) as real * accrual == i as real * accrual + accrual
  {
    assert (i + 1) as real == i as real + 1.0;
  }

  /**
   * The periods of a cap or floor: as many as the frequency gives, to the nearest whole number and one at least, of equal length, the last
   * ending at maturity. Every period is fixed when the one before is paid, but no sooner than after a day.
   */
  lemma StripCovers(currency: string, k: real, t: real, frequency: nat, vol: real, shift: real, i: nat)
    requires t > 0.0
    ensures var s := StripOf(currency, k, t, frequency, vol, shift);
      && s.periods >= 1 && PaymentTime(s, 0) == 0.0 && PaymentTime(s, s.periods) == t
      && PaymentTime(s, i + 1) - PaymentTime(s, i) == s.accrual > 0.0
      && ExpiryTime(s, i + 1) == Max(1.0 / 365.0, PaymentTime(s, i))
      && s.currency == currency && s.strike == k && s.maturity == t && s.shift == shift
      && s.sigma == (if vol < 0.00000001 then 0.00000001 else vol)
      && (t * frequency as real >= 0.5 ==> -0.5 <= s.periods as real - t * frequency as real <= 0.5)
  {
    var s := StripOf(currency, k, t, frequency, vol, shift);
    Nearest(t * frequency as real);
    var n := s.periods as real;
    Quotient(t, n);
    PositiveShare(t, n, s.accrual);
    Steps(i, s.accrual);
  }

  lemma PositiveShare(t: real, n: real, x: real)
    requires t > 0.0 && n > 0.0 && x * n == t
    ensures x > 0.0
  {
    if x <= 0.0 {
      ProductNonNegative(-x, n, -x * n);
      assert false;
    }
  }

  // ----- the fixed leg -----

  /** What the payment at the end of period n is discounted by. */
  function PaidAt(n: nat, accrual: real, rate: real, start: real, maths: Maths): real {
    Discount(rate, start + n as real * accrual, maths)
  }

  lemma Earlier(n: nat, accrual: real, rate: real, start: real, t: real, t': real)
    requires n > 0 && t == start + n as real * accrual && t' == start + (n - 1) as real * accrual
    ensures -rate * t' == -rate * t + rate * accrual
  {
    Steps(n - 1, accrual);
    assert -rate * (t' + accrual) == -rate * t' - rate * accrual;
  }

  lemma PaidParts(n: nat, accrual: real, rate: real, start: real, t: real, maths: Maths) returns (x: real, p: real)
    requires t == start + n as real * accrual
    ensures x == -rate * t && p == maths.exp(x) && p == PaidAt(n, accrual, rate, start, maths) && p == Discount(rate, t, maths)
  {
    x := -rate * t;
    p := Discount(rate, t, maths);
  }

  lemma OneEarlier(n: nat, accrual: real, rate: real, start: real, g: real, maths: Maths)
    requires n > 0 && Multiplicative(maths.exp) && g == maths.exp(rate * accrual)
    ensures PaidAt(n - 1, accrual, rate, start, maths) == PaidAt(n, accrual, rate, start, maths) * g
  {
    hide *;
    var t, t' := start + n as real * accrual, start + (n - 1) as real * accrual;
    var x, p := PaidParts(n, accrual, rate, start, t, maths);
    var x', p' := PaidParts(n - 1, accrual, rate, start, t', maths);
    Earlier(n, accrual, rate, start, t, t');
    ExpSum(x, rate * accrual, x', maths);
  }

  lemma Telescope(sum: real, accrual: real, p: real, q: real, first: real, g: real, next: real)
    requires sum * g - sum == accrual * (first - q) && q == p * g && next == sum + accrual * p
    ensures next * g - next == accrual * (first - p)
  {
    MulAssoc(accrual, p, g);
    assert next * g == sum * g + accrual * q;
  }

  /**
   * The annuity of a leg pays what its floating side does: growth over one period, less one, times the annuity is the accrual times
   * the discount at the start less that at the end.
   */
  lemma {:induction false} AnnuityTelescopes(n: nat, accrual: real, rate: real, start: real, g: real, maths: Maths)
    requires Multiplicative(maths.exp) && g == maths.exp(rate * accrual)
    ensures var annuity := Annuity(n, accrual, rate, start, maths);
      annuity * g - annuity == accrual * (Discount(rate, start, maths) - PaidAt(n, accrual, rate, start, maths))
  {
    hide *;
    if n == 0 {
      NoPeriods(accrual, rate, start, maths);
    } else {
      AnnuityTelescopes(n - 1, accrual, rate, start, g, maths);
      OneEarlier(n, accrual, rate, start, g, maths);
      LastPeriod(n, accrual, rate, start, maths);
      Telescope(Annuity(n - 1, accrual, rate, start, maths), accrual, PaidAt(n, accrual, rate, start, maths),
                PaidAt(n - 1, accrual, rate, start, maths), Discount(rate, start, maths), g, Annuity(n, accrual, rate, start, maths));
    }
  }

  lemma NoPeriods(accrual: real, rate: real, start: real, maths: Maths)
    ensures Annuity(0, accrual, rate, start, maths) == 0.0 && PaidAt(0, accrual, rate, start, maths) == Discount(rate, start, maths)
  {
    assert start + 0 as real * accrual == start;
  }

  lemma LastPeriod(n: nat, accrual: real, rate: real, start: real, maths: Maths)
    requires n > 0
    ensures Annuity(n, accrual, rate, start, maths) == Annuity(n - 1, accrual, rate, start, maths) + accrual * PaidAt(n, accrual, rate, start, maths)
  {
  }

  lemma PaidLast(n: nat, accrual: real, rate: real, start: real, tenor: real, maths: Maths)
    requires accrual * n as real == tenor
    ensures PaidAt(n, accrual, rate, start, maths) == Discount(rate, start + tenor, maths)
  {
    assert n as real * accrual == tenor;
  }

  lemma LegIs(tenor: real, frequency: nat, rate: real, start: real, maths: Maths) returns (accrual: real, n: nat)
    requires tenor > 0.0
    ensures n >= 1 && accrual * n as real == tenor && FixedLeg(tenor, frequency, rate, start, maths) == Annuity(n, accrual, rate, start, maths)
    ensures tenor * frequency as real >= 0.5 ==> -0.5 <= n as real - tenor * frequency as real <= 0.5
  {
    Nearest(tenor * frequency as real);
    n := AtLeastOne(Round(tenor * frequency as real));
    accrual := tenor / n as real;
    Quotient(tenor, n as real);
  }

  /** The leg of a swaption runs from its expiry for the tenor of the swap. */
  lemma FixedLegTelescopes(tenor: real, frequency: nat, rate: real, start: real, maths: Maths) returns (accrual: real, n: nat, g: real)
    requires Multiplicative(maths.exp) && tenor > 0.0
    ensures n >= 1 && accrual * n as real == tenor && g == maths.exp(rate * accrual)
    ensures tenor * frequency as real >= 0.5 ==> -0.5 <= n as real - tenor * frequency as real <= 0.5
    ensures var annuity := FixedLeg(tenor, frequency, rate, start, maths);
      annuity * g - annuity == accrual * (Discount(rate, start, maths) - Discount(rate, start + tenor, maths))
  {
    hide *;
    accrual, n := LegIs(tenor, frequency, rate, start, maths);
    g := maths.exp(rate * accrual);
    AnnuityTelescopes(n, accrual, rate, start, g, maths);
    PaidLast(n, accrual, rate, start, tenor, maths);
  }

  lemma {:induction false} AnnuityPositive(n: nat, accrual: real, rate: real, start: real, maths: Maths)
    requires Positive(maths.exp) && accrual > 0.0
    ensures Annuity(n, accrual, rate, start, maths) >= 0.0
    ensures n > 0 ==> Annuity(n, accrual, rate, start, maths) > 0.0
  {
    if n > 0 {
      AnnuityPositive(n - 1, accrual, rate, start, maths);
      var d := PaidAt(n, accrual, rate, start, maths);
      ProductPositive(accrual, d, accrual * d);
    }
  }

  /** What the optionlets of a strip are paid with, when all payments are discounted at one rate. */
  function Weights(n: nat, d: real, s: Strip, maths: Maths): real {
    if n == 0 then 0.0 else Weights(n - 1, d, s, maths) + CapletWeight(d, s, n, maths)
  }

  lemma WeightIs(n: nat, d: real, s: Strip, maths: Maths)
    ensures CapletWeight(d, s, n, maths) == s.accrual * PaidAt(n, s.accrual, d + s.shift, 0.0, maths)
  {
    var t := PaymentTime(s, n);
    var rate := d + s.shift;
    var x, p := PaidParts(n, s.accrual, rate, 0.0, t, maths);
    hide Discount;
    assert CapletWeight(d, s, n, maths) == p * s.accrual;
  }

  /** At one rate, the optionlets of a cap or floor are weighted as the fixed leg of a swap over the same periods from today. */
  lemma {:induction false} WeightsAreAnnuity(n: nat, d: real, s: Strip, maths: Maths)
    ensures Weights(n, d, s, maths) == Annuity(n, s.accrual, d + s.shift, 0.0, maths)
  {
    if n > 0 {
      WeightsAreAnnuity(n - 1, d, s, maths);
      WeightIs(n, d, s, maths);
      LastPeriod(n, s.accrual, d + s.shift, 0.0, maths);
    }
  }

  // ----- the sum of a strip -----

  predicate AllPriced(units: seq<Result<Unit, string>>) {
    forall i :: 0 <= i < |units| ==> units[i].Ok?
  }

  function Pvs(units: seq<Result<Unit, string>>): (r: Vec)
    requires AllPriced(units)
    ensures |r| == |units|
  {
    seq(|units|, i requires 0 <= i < |units| => units[i].value.pv)
  }

  function Vegas(units: seq<Result<Unit, string>>): (r: Vec)
    requires AllPriced(units)
    ensures |r| == |units|
  {
    seq(|units|, i requires 0 <= i < |units| => units[i].value.vega)
  }

  /** A cap or floor all of whose optionlets are priced has the sum of their values and the sum of their vegas, and is priced only then. */
  lemma {:induction false} StripSums(units: seq<Result<Unit, string>>)
    ensures SumUnits(units).Ok? <==> AllPriced(units)
    ensures AllPriced(units) ==> SumUnits(units) == Ok(Unit(Sum(Pvs(units)), Sum(Vegas(units))))
    decreases |units|
  {
    if units != [] {
      var n := |units| - 1;
      StripSums(units[..n]);
      assert AllPriced(units) <==> AllPriced(units[..n]) && units[n].Ok?;
      if AllPriced(units) {
        assert Pvs(units) == Pvs(units[..n]) + [units[n].value.pv] && Vegas(units) == Vegas(units[..n]) + [units[n].value.vega];
        SumAppend(Pvs(units[..n]), [units[n].value.pv]);
        SumAppend(Vegas(units[..n]), [units[n].value.vega]);
      }
    }
  }
}
