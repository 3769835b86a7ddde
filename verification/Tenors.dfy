/** The names of maturities, and the settlement currency of a position (market/curves.py: tenor_to_years; domain/instrument_terms.py). */
module Tenors {
  import opened Wrappers
  import opened Strings
  import opened RealMath
  import opened Curves
  import opened Snapshots
  import opened Builtin

  /** Seven days a week, twelve months and 365 days a year, and no other unit. */
  lemma UnitsAgree(x: real)
    ensures UnitYears('Y', x) == Some(x) == UnitYears('M', 12.0 * x) == UnitYears('D', 365.0 * x)
    ensures UnitYears('W', x) == UnitYears('D', 7.0 * x)
    ensures forall c :: UnitYears(c, x).Some? <==> c in {'D', 'W', 'M', 'Y'}
  {
  }

  lemma OneDigit(s: string, d: char)
    requires s == [d] && IsDigit(d)
    ensures ParseDecimal(s) == Some((d - '0') as nat as real)
  {
    assert s[..0] == "" && s[1..] == "" && Digits("") == 0;
    assert Digits(s) == 10 * Digits(s[..0]) + (d - '0') as nat;
    assert IndexOf(s, '.') == None;
  }

  lemma TwoDigits(s: string, c: char, d: char)
    requires s == [c, d] && IsDigit(c) && IsDigit(d)
    ensures ParseDecimal(s) == Some((10 * (c - '0') as nat + (d - '0') as nat) as real)
  {
    assert s[..1] == [c] && [c][..0] == "" && s[1..] == [d] && [d][1..] == "" && Digits("") == 0;
    assert Digits([c]) == 10 * Digits([c][..0]) + (c - '0') as nat;
    assert Digits(s) == 10 * Digits(s[..1]) + (d - '0') as nat;
    assert IndexOf([d], '.') == None;
    assert IndexOf(s, '.') == None;
  }

  /** The key tenors are listed with the years that their numerals give. */
  lemma KeyTenorsAreYears(tenor: string)
    requires tenor in TENOR_YEARS
    ensures tenor[|tenor| - 1] == 'Y' && ParseDecimal(tenor[..|tenor| - 1]) == Some(TENOR_YEARS[tenor])
  {
    assert tenor in ["1Y", "2Y", "5Y", "7Y", "10Y", "20Y", "30Y"];
    if |tenor| == 2 {
      assert tenor[..1] == [tenor[0]];
      OneDigit(tenor[..1], tenor[0]);
    } else {
      assert tenor[..2] == [tenor[0], tenor[1]];
      TwoDigits(tenor[..2], tenor[0], tenor[1]);
    }
  }

  // ----- settlement currencies -----

  lemma {:induction false} LeftStripped(s: string)
    ensures StripLeft(s) == [] || !IsSpace(StripLeft(s)[0])
  {
    if s != [] && IsSpace(s[0]) {
      LeftStripped(s[1..]);
    }
  }

  lemma {:induction false} RightStripped(s: string)
    ensures StripRight(s) <= s && StripRight(StripRight(s)) == StripRight(s)
  {
    if s != [] && IsSpace(s[|s| - 1]) {
      RightStripped(s[..|s| - 1]);
    }
  }

  lemma StripTwice(s: string)
    ensures Strings.Strip(Strings.Strip(s)) == Strings.Strip(s)
  {
    var t := StripLeft(s);
    LeftStripped(s);
    RightStripped(t);
    if StripRight(t) != [] {
      assert StripRight(t)[0] == t[0];
    }
    assert StripLeft(StripRight(t)) == StripRight(t);
  }

  /** A position of an equity family without a settlement currency is not valued on any market; spaces around the currency do not matter. */
  lemma SettlementCurrency(p: Position, m: Marks, maths: Maths)
    requires Contractual(p.economics) && IsEquityFamily(p.economics)
    ensures Strings.Strip(p.economics.currency) == "" ==> Value(p, m, maths).Err?
    ensures Strings.Strip(p.economics.currency) != "" ==>
      && Contractual(WithCurrency(p.economics, Strings.Strip(p.economics.currency)))
      && Value(p, m, maths) == Value(p.(economics := WithCurrency(p.economics, Strings.Strip(p.economics.currency))), m, maths)
  {
    StripTwice(p.economics.currency);
    var currency := Strings.Strip(p.economics.currency);
    var q := p.(economics := WithCurrency(p.economics, currency));
    assert WithCurrency(q.economics, currency) == q.economics;
    if currency != "" {
      assert TermsOf(p) == TermsOf(q) == Ok(Terms(p.header, q.economics));
    }
  }
}
