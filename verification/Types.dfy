/** Vocabulary shared by the models: the repository's fundamental types. Prices,
    quantities and money are exact reals; time is an integer count of ticks. */
module Types {

  datatype Option<+T> = None | Some(value: T)

  datatype Result<+T, +E> = Ok(value: T) | Err(error: E)

  datatype Side = Buy | Sell

  datatype MarketType = Spot | Futures

  /** The error codes that the risk layer reports. */
  datatype ErrorCode =
    | NoError
    | DrawdownLimitHit
    | PositionLimitHit
    | RateLimitHit
    | SymbolLimitHit
    | FuturesLeverageExceeded
    | FuturesMarginInsufficient

  datatype RiskDecision = Approved | Modified | Rejected

  /** One candlestick. */
  datatype Kline = Kline(
    openTime: int, closeTime: int,
    open: real, high: real, low: real, close: real,
    volume: real, closed: bool)

  const ZERO_KLINE := Kline(0, 0, 0.0, 0.0, 0.0, 0.0, 0.0, false)

  /** Integer division of the source language: the quotient is cut off towards zero. */
  function Quotient(n: int, d: int): int
    requires d > 0
  {
    if n >= 0 then n / d else -(-n / d)
  }

  /** q is n / d cut off towards zero: what is left over is less than d and of n's sign. */
  predicate IsQuotient(q: int, n: int, d: int) {
    if n >= 0 then 0 <= n - q * d < d else -d < n - q * d <= 0
  }

  lemma QuotientCutsOff(n: int, d: int)
    requires d > 0
    ensures IsQuotient(Quotient(n, d), n, d)
  {
    if n >= 0 {
      assert n == (n / d) * d + n % d;
    } else {
      assert -n == (-n / d) * d + -n % d;
      assert (-(-n / d)) * d == -((-n / d) * d);
    }
  }

  function Min(a: int, b: int): int { if a <= b then a else b }

  function Max(a: int, b: int): int { if a >= b then a else b }

  function MinR(a: real, b: real): real { if a <= b then a else b }

  function MaxR(a: real, b: real): real { if a >= b then a else b }

  function AbsR(a: real): real { if a >= 0.0 then a else -a }

  /** The last n elements of s, or all of s when it is shorter. */
  function Suffix<T>(s: seq<T>, n: nat): (r: seq<T>)
    ensures |r| == Min(n, |s|)
  {
    s[|s| - Min(n, |s|)..]
  }
}
