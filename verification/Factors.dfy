/** Typed risk factors and their string keys (risk/factor_types.py). */
module Factors {
  datatype Factor =
    | EquitySpot(symbol: string)
    | EquityVol(underlying: string, expiry: string, moneyness: string)
    | FXSpot(pair: string)
    | FXVol(pair: string, expiry: string, moneyness: string)
    | RateZero(currency: string, tenor: string)

  /** Vol factors of one name share a key, whatever their bucket. */
  function Key(f: Factor): string {
    match f
    case EquitySpot(s) => s
    case EquityVol(u, _, _) => u + ":VOL"
    case FXSpot(p) => p
    case FXVol(p, _, _) => p + ":VOL"
    case RateZero(c, _) => c + ":RATE"
  }
}
