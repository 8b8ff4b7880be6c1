/** The SuperTrend indicator: true ranges, tightening bands, and the trend line that
    follows one of them. */
module SuperTrend {
  import opened RealMath
  import opened Signals
  import opened Types

  // -------------------------------------------------------------------------
  // Average true range
  // -------------------------------------------------------------------------

  function TrueRange(k: Kline, prevClose: real): real {
    MaxR(k.high - k.low, MaxR(AbsR(k.high - prevClose), AbsR(k.low - prevClose)))
  }

  /** Sum of the true ranges of candles from..until, each against the close before it. */
  ghost function RangeSum(candles: seq<Kline>, from: nat, until: nat): real
    requires 0 < from <= until <= |candles|
  {
    if from == until then 0.0
    else RangeSum(candles, from, until - 1) + TrueRange(candles[until - 1], candles[until - 2].close)
  }

  /** Average over the last `period` candles, or 0 when there are too few. */
  ghost function AverageTrueRange(candles: seq<Kline>, period: nat): real
    requires period > 0
  {
    if |candles| < period + 1 then 0.0
    else RangeSum(candles, |candles| - period, |candles|) / period as real
  }

  /** Only the last period + 1 candles count. */
  lemma OnlyLastCandlesCount(candles: seq<Kline>, period: nat)
    requires period > 0
    ensures AverageTrueRange(candles, period) == AverageTrueRange(Suffix(candles, period + 1), period)
  {
    var n := |candles|;
    if n > period + 1 {
      SumOfSuffix(candles, n - period - 1, n - period, n);
    }
  }

  lemma {:induction false} SumOfSuffix(candles: seq<Kline>, cut: nat, from: nat, until: nat)
    requires cut < from <= until <= |candles|
    ensures RangeSum(candles, from, until) == RangeSum(candles[cut..], from - cut, until - cut)
    decreases until
  {
    if from < until {
      SumOfSuffix(candles, cut, from, until - 1);
    }
  }

  method ComputeAtr(candles: seq<Kline>, period: nat) returns (atr: real)
    requires period > 0
    ensures atr == AverageTrueRange(candles, period)
  {
    if |candles| < period + 1 {
      return 0.0;
    }
    var sum := 0.0;
    var start := |candles| - period;
    for i := start to |candles|
      invariant sum == RangeSum(candles, start, i)
    {
      var hl := candles[i].high - candles[i].low;
      var hpc := AbsR(candles[i].high - candles[i - 1].close);
      var lpc := AbsR(candles[i].low - candles[i - 1].close);
      sum := sum + MaxR(hl, MaxR(hpc, lpc));
    }
    atr := sum / period as real;
  }

  /** The true range is the height of the candle stretched to the close before it. */
  lemma TrueRangeIsSpan(k: Kline, prevClose: real)
    requires k.low <= k.high
    ensures TrueRange(k, prevClose) == MaxR(k.high, prevClose) - MinR(k.low, prevClose)
  {
  }

  /** The sum is never negative, and zero only for a market that stands still: every
      candle at the close before it. */
  lemma {:induction false} RangeSumZeroIffFlat(candles: seq<Kline>, from: nat, until: nat)
    requires 0 < from <= until <= |candles|
    ensures RangeSum(candles, from, until) >= 0.0
    ensures RangeSum(candles, from, until) == 0.0 <==>
              forall i | from <= i < until :: candles[i].high == candles[i].low == candles[i - 1].close
    decreases until
  {
    if from < until {
      RangeSumZeroIffFlat(candles, from, until - 1);
    }
  }

  // -------------------------------------------------------------------------
  // Bands and trend
  // -------------------------------------------------------------------------

  datatype Trend = Trend(upper: real, lower: real, close: real, line: real, bullish: bool, hasPrev: bool)

  const UNSEEN := Trend(0.0, 0.0, 0.0, 0.0, false, false)

  /** One candle, reduced to what the bands need. `reach` is how far the basic bands
      lie from its midpoint. */
  datatype Bar = Bar(high: real, low: real, close: real, reach: real)

  function Reach(multiplier: real, atr: real): real { multiplier * atr }

  function Midpoint(b: Bar): real { (b.high + b.low) / 2.0 }

  function NextUpper(t: Trend, b: Bar): real {
    var basic := Midpoint(b) + b.reach;
    if t.hasPrev && !(basic < t.upper || t.close > t.upper) then t.upper else basic
  }

  function NextLower(t: Trend, b: Bar): real {
    var basic := Midpoint(b) - b.reach;
    if t.hasPrev && !(basic > t.lower || t.close < t.lower) then t.lower else basic
  }

  function NextBullish(t: Trend, b: Bar): bool {
    if !t.hasPrev then b.close >= Midpoint(b)
    else if t.bullish then b.close >= NextLower(t, b)
    else b.close > NextUpper(t, b)
  }

  function Advance(t: Trend, b: Bar): Trend {
    var upper, lower, bullish := NextUpper(t, b), NextLower(t, b), NextBullish(t, b);
    Trend(upper, lower, b.close, if bullish then lower else upper, bullish, true)
  }

  function AdvanceAll(t: Trend, bars: seq<Bar>): Trend
    decreases |bars|
  {
    if bars == [] then t else AdvanceAll(Advance(t, bars[0]), bars[1..])
  }

  /** When the trend turns: a bullish one exactly on a close below the new lower band, a
      bearish one exactly on a close above the new upper band. The first candle is bullish
      exactly when it closes in its upper half. */
  lemma FlipsExactlyWhen(t: Trend, b: Bar)
    ensures
      var t' := Advance(t, b);
      && (t.hasPrev && t.bullish ==> (!t'.bullish <==> b.close < t'.lower))
      && (t.hasPrev && !t.bullish ==> (t'.bullish <==> b.close > t'.upper))
      && (!t.hasPrev ==> (t'.bullish <==> 2.0 * b.close >= b.high + b.low))
      && t'.close == b.close && t'.hasPrev
  {
  }

  /** No close before the last lies above the upper band (below the lower one) in force
      then, so that the band is never reset. */
  ghost predicate UpperHolds(t: Trend, bars: seq<Bar>)
    decreases |bars|
  {
    bars == [] || (t.close <= t.upper && UpperHolds(Advance(t, bars[0]), bars[1..]))
  }

  ghost predicate LowerHolds(t: Trend, bars: seq<Bar>)
    decreases |bars|
  {
    bars == [] || (t.close >= t.lower && LowerHolds(Advance(t, bars[0]), bars[1..]))
  }

  function BasicUpper(b: Bar): real { (b.high + b.low) / 2.0 + b.reach }

  function BasicLower(b: Bar): real { (b.high + b.low) / 2.0 - b.reach }

  /** While it is not reset, the upper band is the lowest basic upper band so far, and the
      lower band the highest basic lower one. */
  lemma {:induction false} BandsAreRunningExtrema(t: Trend, bars: seq<Bar>)
    requires t.hasPrev
    ensures
      var t' := AdvanceAll(t, bars);
      && (UpperHolds(t, bars) ==>
            && t'.upper <= t.upper && (forall b <- bars :: t'.upper <= BasicUpper(b))
            && (t'.upper == t.upper || exists b :: b in bars && t'.upper == BasicUpper(b)))
      && (LowerHolds(t, bars) ==>
            && t'.lower >= t.lower && (forall b <- bars :: t'.lower >= BasicLower(b))
            && (t'.lower == t.lower || exists b :: b in bars && t'.lower == BasicLower(b)))
    decreases |bars|
  {
    if bars != [] {
      BandsStep(t, bars[0]);
      hide Advance;
      BandsAreRunningExtrema(Advance(t, bars[0]), bars[1..]);
      assert forall b <- bars :: b == bars[0] || b in bars[1..];
    }
  }

  /** A close beyond a band resets that band to the basic one; otherwise it tightens. */
  lemma BandsStep(t: Trend, b: Bar)
    ensures
      var t' := Advance(t, b);
      && t'.hasPrev
      && t'.upper == (if t.hasPrev && t.close <= t.upper then MinR(t.upper, BasicUpper(b)) else BasicUpper(b))
      && t'.lower == (if t.hasPrev && t.close >= t.lower then MaxR(t.lower, BasicLower(b)) else BasicLower(b))
  {
  }

  /** The close lies on the trend's side of its own band. */
  ghost predicate Settled(t: Trend) {
    t.hasPrev && (if t.bullish then t.close >= t.lower else t.close <= t.upper)
  }

  ghost predicate Holds(t: Trend, b: Bar) {
    t.hasPrev && Advance(t, b).bullish == t.bullish
  }

  /** Every bar keeps the trend direction. */
  ghost predicate HoldsAll(t: Trend, bars: seq<Bar>)
    decreases |bars|
  {
    bars == [] || (Holds(t, bars[0]) && HoldsAll(Advance(t, bars[0]), bars[1..]))
  }

  /** No move against the trend. */
  ghost predicate Ratchets(t: Trend, t': Trend) {
    if t.bullish then t.line <= t'.line else t'.line <= t.line
  }

  /** After any bars the line is the lower band when bullish, the upper when bearish. */
  lemma {:induction false} LineFollowsBand(t: Trend, bars: seq<Bar>)
    requires bars != [] || (t.hasPrev && t.line == if t.bullish then t.lower else t.upper)
    ensures
      var t' := AdvanceAll(t, bars);
      t'.hasPrev && t'.line == if t'.bullish then t'.lower else t'.upper
    decreases |bars|
  {
    if bars != [] {
      LineFollowsBand(Advance(t, bars[0]), bars[1..]);
    }
  }

  /** A bar that keeps the trend leaves it settled; so does the first bar ever. */
  lemma HoldingSettles(t: Trend, b: Bar)
    requires Holds(t, b) || (!t.hasPrev && b.reach >= 0.0)
    ensures Settled(Advance(t, b))
  {
  }

  /** While the trend holds from a settled state, the line only ratchets. */
  lemma {:induction false} HoldingRatchets(t: Trend, bars: seq<Bar>)
    requires Settled(t) && t.line == (if t.bullish then t.lower else t.upper) && HoldsAll(t, bars)
    ensures
      var t' := AdvanceAll(t, bars);
      t'.bullish == t.bullish && Settled(t') && Ratchets(t, t')
    decreases |bars|
  {
    if bars != [] {
      HoldingSettles(t, bars[0]);
      HoldingRatchets(Advance(t, bars[0]), bars[1..]);
    }
  }

  /** For one holding bar from any state: the line gives way exactly when the previous
      close was beyond the trend's own band and the new basic band is looser. */
  lemma RatchetFailsExactlyWhen(t: Trend, b: Bar)
    requires Holds(t, b) && t.line == if t.bullish then t.lower else t.upper
    ensures
      !Ratchets(t, Advance(t, b)) <==>
        if t.bullish then t.close < t.lower && Midpoint(b) - b.reach < t.lower
        else t.close > t.upper && Midpoint(b) + b.reach > t.upper
  {
  }

  /** The state after one more closed candle; `candles` is the window it is judged on. */
  ghost function Observed(t: Trend, multiplier: real, period: nat, candles: seq<Kline>): Trend
    requires period > 0
  {
    var atr := AverageTrueRange(candles, period);
    if atr <= 0.0 then t
    else
      var last := candles[|candles| - 1];
      Advance(t, Bar(last.high, last.low, last.close, Reach(multiplier, atr)))
  }

  /** The state after a history of candles, each judged on the last period + 1. */
  ghost function AfterHistory(multiplier: real, period: nat, history: seq<Kline>): Trend
    requires period > 0
  {
    if history == [] then UNSEEN
    else Observed(AfterHistory(multiplier, period, history[..|history| - 1]), multiplier, period, Suffix(history, period + 1))
  }

  /** A candle given by high, low and close. */
  function Candle(high: real, low: real, close: real): Kline {
    ZERO_KLINE.(high := high, low := low, close := close)
  }

  /** It happens with the shipped parameters, right after a flip on a price gap: the flip
      leaves the close below the new lower band, and the next candle, still bullish, drops
      the line. */
  lemma LineFallsAfterGapFlip()
    ensures
      var flat := seq(10, _ => Candle(95.0, 95.0, 95.0));
      var h1 := flat + [Candle(96.0, 94.0, 94.0)];
      var h2 := h1 + [Candle(130.0, 96.0, 96.0)];
      var h3 := h2 + [Candle(100.0, 98.0, 99.0)];
      var t1, t2, t3 := AfterHistory(3.0, 10, h1), AfterHistory(3.0, 10, h2), AfterHistory(3.0, 10, h3);
      && !t1.bullish && t2.bullish && t3.bullish
      && t2.line == 101.6 && t3.line == 86.4
  {
    var flat := seq(10, _ => Candle(95.0, 95.0, 95.0));
    var c1, c2, c3 := Candle(96.0, 94.0, 94.0), Candle(130.0, 96.0, 96.0), Candle(100.0, 98.0, 99.0);
    var h1, h2, h3 := flat + [c1], flat + [c1, c2], flat + [c1, c2, c3];
    assert h1[..10] == flat && h2[..11] == h1 && h3[..12] == h2;
    assert h2 == h1 + [c2] && h3 == h2 + [c3];
    WarmingUp(3.0, 10, flat);
    assert Suffix(h1, 11) == h1;
    ThreeRanges();
    var t1 := AfterHistory(3.0, 10, h1);
    assert t1 == Advance(UNSEEN, Bar(96.0, 94.0, 94.0, 0.6));
    assert t1 == Trend(95.6, 94.4, 94.0, 95.6, false, true);
    var t2 := AfterHistory(3.0, 10, h2);
    assert t2 == Advance(t1, Bar(130.0, 96.0, 96.0, 11.4));
    assert t2 == Trend(95.6, 101.6, 96.0, 101.6, true, true);
    var t3 := AfterHistory(3.0, 10, h3);
    assert t3 == Advance(t2, Bar(100.0, 98.0, 99.0, 12.6));
  }

  lemma {:induction false} WarmingUp(multiplier: real, period: nat, history: seq<Kline>)
    requires 0 < period && |history| <= period
    ensures AfterHistory(multiplier, period, history) == UNSEEN
  {
    if history != [] {
      WarmingUp(multiplier, period, history[..|history| - 1]);
    }
  }

  /** The average true ranges of the three windows. */
  lemma ThreeRanges()
    ensures
      var flat := seq(10, _ => Candle(95.0, 95.0, 95.0));
      var c1, c2, c3 := Candle(96.0, 94.0, 94.0), Candle(130.0, 96.0, 96.0), Candle(100.0, 98.0, 99.0);
      && AverageTrueRange(flat + [c1], 10) == 0.2
      && AverageTrueRange(Suffix(flat + [c1, c2], 11), 10) == 3.8
      && AverageTrueRange(Suffix(flat + [c1, c2, c3], 11), 10) == 4.2
  {
    var flat := seq(10, _ => Candle(95.0, 95.0, 95.0));
    var c1, c2, c3 := Candle(96.0, 94.0, 94.0), Candle(130.0, 96.0, 96.0), Candle(100.0, 98.0, 99.0);
    var w1, w2, w3 := flat + [c1], Suffix(flat + [c1, c2], 11), Suffix(flat + [c1, c2, c3], 11);
    RangeSumZeroIffFlat(w1, 1, 10);
    RangeSumZeroIffFlat(w2, 1, 9);
    RangeSumZeroIffFlat(w3, 1, 8);
    assert RangeSum(w1, 1, 11) == 2.0;
    assert RangeSum(w2, 1, 10) == 2.0 && RangeSum(w2, 1, 11) == 38.0;
    assert RangeSum(w3, 1, 9) == 2.0 && RangeSum(w3, 1, 10) == 38.0 && RangeSum(w3, 1, 11) == 42.0;
  }

  // -------------------------------------------------------------------------
  // The strategy object
  // -------------------------------------------------------------------------

  /** Distance from the close to the line, in average true ranges. */
  function FlipConfidence(close: real, line: real, atr: real): (c: real)
    requires atr > 0.0
    ensures 0.0 <= c <= 1.0
  {
    Clamp01(AbsR(close - line) / atr)
  }

  /** In price terms: the distance to the line, but no more than one average true range. */
  lemma FlipConfidenceIsDistance(close: real, line: real, atr: real)
    requires atr > 0.0
    ensures FlipConfidence(close, line, atr) * atr == MinR(AbsR(close - line), atr)
  {
    var d := AbsR(close - line);
    var q := d / atr;
    assert q * atr == d;
    ScaleOrder(atr, q, 1.0);
    ScaleOrder(atr, 0.0, q);
    assert FlipConfidence(close, line, atr) == if q > 1.0 then 1.0 else q;
    if q > 1.0 {
      assert d >= atr;
      assert 1.0 * atr == atr;
    } else {
      assert d <= atr;
    }
  }

  class Scalper {
    var multiplier: real
    var cooldownSeconds: real
    var minConfidence: real
    var prevUpperBand: real
    var prevLowerBand: real
    var prevClose: real
    var prevSupertrend: real
    var isBullish: bool
    var hasPrev: bool
    var lastSignalTimeMs: int

    ghost function State(): Trend
      reads this
    {
      Trend(prevUpperBand, prevLowerBand, prevClose, prevSupertrend, isBullish, hasPrev)
    }

    constructor ()
      ensures State() == UNSEEN && lastSignalTimeMs == 0
      ensures multiplier == 3.0 && cooldownSeconds == 30.0 && minConfidence == 0.6
    {
      multiplier, cooldownSeconds, minConfidence := 3.0, 30.0, 0.6;
      prevUpperBand, prevLowerBand, prevClose, prevSupertrend := 0.0, 0.0, 0.0, 0.0;
      isBullish, hasPrev, lastSignalTimeMs := false, false, 0;
    }

    /** One closed candle; `candles` is the buffer's answer to a request for period + 1.
        A signal needs a flip of an established trend and an elapsed cooldown, and
        points the way the trend turned. */
    method OnKline(candles: seq<Kline>, period: nat, nowMs: int) returns (emitted: Option<Signal>)
      requires period > 0
      modifies this
      ensures unchanged(`multiplier) && unchanged(`cooldownSeconds) && unchanged(`minConfidence)
      ensures State() == Observed(old(State()), multiplier, period, candles)
      ensures
        var atr := AverageTrueRange(candles, period);
        var flipped := atr > 0.0 && old(hasPrev) && isBullish != old(isBullish);
        if flipped && nowMs - old(lastSignalTimeMs) >= Truncate(cooldownSeconds * 1000.0) then
          var kind := if isBullish then BuySignal else SellSignal;
          && emitted == Filtered(Signal(kind, FlipConfidence(prevClose, prevSupertrend, atr), prevClose), minConfidence)
          && lastSignalTimeMs == nowMs
        else
          emitted == None && lastSignalTimeMs == old(lastSignalTimeMs)
    {
      hide Advance, FlipConfidence, RangeSum, Reach;
      emitted := None;
      if |candles| < period + 1 {
        return;
      }
      var atr := ComputeAtr(candles, period);
      if 0.0 >= atr {
        return;
      }
      var latest := candles[|candles| - 1];
      var reach := Reach(multiplier, atr);
      var next := NextTrend(latest, reach);
      if hasPrev && isBullish != next.bullish {
        if nowMs - lastSignalTimeMs >= Truncate(cooldownSeconds * 1000.0) {
          var confidence := FlipConfidence(latest.close, next.line, atr);
          var kind := if next.bullish then BuySignal else SellSignal;
          emitted := Filtered(Signal(kind, confidence, latest.close), minConfidence);
          lastSignalTimeMs := nowMs;
        }
      }
      prevUpperBand, prevLowerBand, prevClose := next.upper, next.lower, next.close;
      prevSupertrend, isBullish, hasPrev := next.line, next.bullish, next.hasPrev;
    }

    /** Final bands and trend for the latest candle. */
    method NextTrend(latest: Kline, reach: real) returns (next: Trend)
      ensures next == Advance(State(), Bar(latest.high, latest.low, latest.close, reach))
      ensures next.close == latest.close
    {
      var midpoint := (latest.high + latest.low) / 2.0;
      var basicUpper, basicLower := midpoint + reach, midpoint - reach;

      var finalUpper := basicUpper;
      if hasPrev {
        if basicUpper < prevUpperBand || prevClose > prevUpperBand {
          finalUpper := basicUpper;
        } else {
          finalUpper := prevUpperBand;
        }
      }
      var finalLower := basicLower;
      if hasPrev {
        if basicLower > prevLowerBand || prevClose < prevLowerBand {
          finalLower := basicLower;
        } else {
          finalLower := prevLowerBand;
        }
      }

      var bullish, line := isBullish, 0.0;
      if hasPrev {
        if isBullish && latest.close >= finalLower {
          bullish, line := true, finalLower;
        } else if !isBullish && latest.close <= finalUpper {
          bullish, line := false, finalUpper;
        } else if isBullish && latest.close < finalLower {
          bullish, line := false, finalUpper;
        } else {
          bullish, line := true, finalLower;
        }
      } else {
        bullish := latest.close >= midpoint;
        line := if bullish then finalLower else finalUpper;
      }
      next := Trend(finalUpper, finalLower, latest.close, line, bullish, true);
    }
  }
}
