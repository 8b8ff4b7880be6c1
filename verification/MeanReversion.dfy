/** The Bollinger-band scalper: mean and deviation of a window of closes, the
    confidence of a breach, and the cooldown. The square root is a parameter: any
    non-negative number whose square is the variance. */
module MeanReversion {
  import opened RealMath
  import opened Signals
  import opened Types

  // -------------------------------------------------------------------------
  // The statistics of a window
  // -------------------------------------------------------------------------

  /** Sum of squared distances to c. */
  ghost function SquaredDeviation(s: seq<real>, c: real): real {
    if s == [] then 0.0
    else SquaredDeviation(s[..|s| - 1], c) + (s[|s| - 1] - c) * (s[|s| - 1] - c)
  }

  ghost function Mean(s: seq<real>): real
    requires s != []
  {
    Sum(s) / |s| as real
  }

  ghost function Variance(s: seq<real>): real
    requires s != []
  {
    SquaredDeviation(s, Mean(s)) / |s| as real
  }

  ghost predicate IsRoot(r: real, x: real) {
    r >= 0.0 && r * r == x
  }

  /** How far beyond the nearer band the last close lies, as a fraction of the band width. */
  function Penetration(price: real, sma: real, sd: real, k: real): real {
    var upper, lower := sma + k * sd, sma - k * sd;
    var width := upper - lower;
    if width <= 0.0 then 0.0
    else if price <= lower then (lower - price) / width
    else (price - upper) / width
  }

  ghost function Confidence(closes: seq<real>, sd: real, k: real): real
    requires closes != []
  {
    Clamp01(Penetration(closes[|closes| - 1], Mean(closes), sd, k))
  }

  // -------------------------------------------------------------------------
  // Samuelson's inequality
  // -------------------------------------------------------------------------

  /** One step of Cauchy-Schwarz: from s*s <= m*q follow the same for one more term. */
  lemma CauchyStep(s: real, q: real, d: real, m: real)
    requires m >= 1.0 && s * s <= m * q
    ensures (s + d) * (s + d) <= (m + 1.0) * (q + d * d)
  {
    var gap := q + m * (d * d) - 2.0 * (s * d);
    SquareNonNegative(s - m * d);
    assert m * gap == m * q + (m * m) * (d * d) - 2.0 * (m * (s * d));
    assert (s - m * d) * (s - m * d) == s * s - 2.0 * (m * (s * d)) + (m * m) * (d * d);
    ScaleOrder(m, 0.0, gap);
    assert (s + d) * (s + d) == s * s + 2.0 * (s * d) + d * d;
    assert (m + 1.0) * (q + d * d) == m * q + q + m * (d * d) + d * d;
  }

  lemma {:induction false} Cauchy(s: seq<real>, c: real)
    ensures (Sum(s) - |s| as real * c) * (Sum(s) - |s| as real * c) <= |s| as real * SquaredDeviation(s, c)
  {
    if |s| == 1 {
      assert s[..0] == [];
    } else if |s| > 1 {
      var t, x := s[..|s| - 1], s[|s| - 1];
      Cauchy(t, c);
      CauchyStep(Sum(t) - |t| as real * c, SquaredDeviation(t, c), x - c, |t| as real);
      assert Sum(s) - |s| as real * c == (Sum(t) - |t| as real * c) + (x - c);
    }
  }

  /** Sums over all but the last value, and mean and variance as equations. */
  lemma LastApart(closes: seq<real>)
    requires closes != []
    ensures
      var n, mu, v := |closes| as real, Mean(closes), Variance(closes);
      var t, x := closes[..|closes| - 1], closes[|closes| - 1];
      && n * mu == Sum(t) + x
      && n * v == SquaredDeviation(t, mu) + (x - mu) * (x - mu)
  {
  }

  /** From d*d <= (n - 1)q, where n*v is q + d*d, follows the same bound in terms of v. */
  lemma SpreadBound(n: real, d: real, q: real, v: real)
    requires n > 0.0 && d * d <= (n - 1.0) * q && n * v == q + d * d
    ensures d * d <= (n - 1.0) * v
  {
    var e := d * d;
    assert n * e == e + (n - 1.0) * e;
    assert n * ((n - 1.0) * v) == (n - 1.0) * (n * v);
    assert (n - 1.0) * (q + e) == (n - 1.0) * q + (n - 1.0) * e;
    ScaleOrder(n, e, (n - 1.0) * v);
  }

  /** The last of n values is at most sqrt(n - 1) standard deviations from their mean. */
  lemma Samuelson(closes: seq<real>)
    requires closes != []
    ensures
      var d := closes[|closes| - 1] - Mean(closes);
      d * d <= (|closes| - 1) as real * Variance(closes)
  {
    hide Sum, SquaredDeviation, Mean, Variance;
    var n, mu, t := |closes| as real, Mean(closes), closes[..|closes| - 1];
    var d, q := closes[|closes| - 1] - mu, SquaredDeviation(t, mu);
    LastApart(closes);
    Cauchy(t, mu);
    MinusSquared(Sum(t) - |t| as real * mu, d);
    SpreadBound(n, d, q, Variance(closes));
  }

  lemma MinusSquared(gap: real, d: real)
    requires gap == -d
    ensures gap * gap == d * d
  {
  }

  // -------------------------------------------------------------------------
  // The two sides are alike
  // -------------------------------------------------------------------------

  /** On either side, the confidence is the distance beyond the nearer band as a fraction
      of the band width, clamped; and 0 when the bands have no width. */
  lemma ConfidenceExactly(closes: seq<real>, sd: real, k: real)
    requires closes != []
    ensures
      var away, half := AbsR(closes[|closes| - 1] - Mean(closes)), k * sd;
      Confidence(closes, sd, k) == if half <= 0.0 then 0.0 else Clamp01((away - half) / (2.0 * half))
  {
    hide Mean;
    PenetrationExactly(closes[|closes| - 1], Mean(closes), sd, k);
  }

  lemma PenetrationExactly(x: real, mu: real, sd: real, k: real)
    ensures
      var away, half := AbsR(x - mu), k * sd;
      Clamp01(Penetration(x, mu, sd, k)) == if half <= 0.0 then 0.0 else Clamp01((away - half) / (2.0 * half))
  {
    var half := k * sd;
    assert (mu + half) - (mu - half) == 2.0 * half;
    if half > 0.0 {
      QuotientOrder(x - (mu + half), 2.0 * half, 0.0);
      QuotientOrder(AbsR(x - mu) - half, 2.0 * half, 0.0);
    }
  }

  /** A signal passes a positive threshold m exactly when the last close lies k*sd times
      1 + 2m or more from the mean, above or below. */
  lemma PassesExactlyWhen(closes: seq<real>, sd: real, k: real, m: real)
    requires closes != [] && k * sd > 0.0 && 0.0 < m <= 1.0
    ensures Confidence(closes, sd, k) >= m <==>
            AbsR(closes[|closes| - 1] - Mean(closes)) >= (k * sd) * (1.0 + 2.0 * m)
  {
    hide Mean, Confidence;
    ConfidenceExactly(closes, sd, k);
    FractionReaches(AbsR(closes[|closes| - 1] - Mean(closes)), k * sd, m);
  }

  lemma FractionReaches(away: real, half: real, m: real)
    requires half > 0.0
    ensures (away - half) / (2.0 * half) >= m <==> away >= half * (1.0 + 2.0 * m)
  {
    var q := (away - half) / (2.0 * half);
    assert q * (2.0 * half) == away - half;
    ScaleOrder(2.0 * half, m, q);
    assert half * (1.0 + 2.0 * m) == half + m * (2.0 * half);
  }

  function Negated(s: seq<real>): (r: seq<real>)
    ensures |r| == |s|
  {
    seq(|s|, i requires 0 <= i < |s| => -s[i])
  }

  lemma {:induction false} NegatedSums(s: seq<real>, c: real)
    ensures Sum(Negated(s)) == -Sum(s)
    ensures SquaredDeviation(Negated(s), -c) == SquaredDeviation(s, c)
  {
    if s != [] {
      var n := |s| - 1;
      NegatedSums(s[..n], c);
      assert Negated(s)[..n] == Negated(s[..n]);
      assert (-s[n] - -c) * (-s[n] - -c) == (s[n] - c) * (s[n] - c);
    }
  }

  /** Turning the prices upside down turns the mean over and leaves variance and confidence
      as they are: a fall counts for as much as the same rise. */
  lemma ConfidenceIsSymmetric(closes: seq<real>, sd: real, k: real)
    requires closes != []
    ensures Mean(Negated(closes)) == -Mean(closes) && Variance(Negated(closes)) == Variance(closes)
    ensures Confidence(Negated(closes), sd, k) == Confidence(closes, sd, k)
  {
    hide Confidence;
    NegatedSums(closes, Mean(closes));
    MeanNegates(Sum(closes), |closes| as real);
    ConfidenceExactly(closes, sd, k);
    ConfidenceExactly(Negated(closes), sd, k);
  }

  lemma MeanNegates(sum: real, n: real)
    requires n > 0.0
    ensures (-sum) / n == -(sum / n)
  {
    assert (-(sum / n)) * n == -sum;
    QuotientCancel(-sum, n, -(sum / n));
  }

  // -------------------------------------------------------------------------
  // What it does to the confidence
  // -------------------------------------------------------------------------

  /** Distance d beyond the mean gives penetration at most (r - k) / 2k. */
  lemma PenetrationBound(d: real, sd: real, k: real, r: real)
    requires k > 0.0 && sd > 0.0 && d <= r * sd
    ensures (d - k * sd) / (2.0 * (k * sd)) <= (r - k) / (2.0 * k)
  {
    ProductPositive(k, sd);
    var b := (r - k) / (2.0 * k);
    assert b * (2.0 * (k * sd)) == (b * (2.0 * k)) * sd;
    assert b * (2.0 * k) == r - k;
    QuotientOrder(d - k * sd, 2.0 * (k * sd), b);
  }

  /** Confidence is capped by the window size alone, whatever the prices. */
  lemma ConfidenceBound(closes: seq<real>, sd: real, k: real, r: real)
    requires closes != [] && k > 0.0
    requires IsRoot(sd, Variance(closes)) && IsRoot(r, (|closes| - 1) as real)
    ensures Confidence(closes, sd, k) <= MaxR(0.0, (r - k) / (2.0 * k))
  {
    var mu, x := Mean(closes), closes[|closes| - 1];
    Samuelson(closes);
    assert (r * sd) * (r * sd) == (r * r) * (sd * sd);
    RootOrder(x - mu, r * sd);
    assert (mu - x) * (mu - x) == (x - mu) * (x - mu);
    RootOrder(mu - x, r * sd);
    if sd > 0.0 {
      PenetrationBound(x - mu, sd, k, r);
      PenetrationBound(mu - x, sd, k, r);
      assert (mu + k * sd) - (mu - k * sd) == 2.0 * (k * sd);
    }
  }

  /** n - 1 flat closes and one spike of height n. */
  ghost function Spike(n: nat): seq<real>
    requires n > 0
  {
    seq(n - 1, _ => 0.0) + [n as real]
  }

  lemma {:induction false} FlatSums(m: nat, c: real)
    ensures Sum(seq(m, _ => 0.0)) == 0.0
    ensures SquaredDeviation(seq(m, _ => 0.0), c) == m as real * (c * c)
  {
    var s := seq(m, _ => 0.0);
    if m > 0 {
      FlatSums(m - 1, c);
      assert s[..m - 1] == seq(m - 1, _ => 0.0);
      assert m as real * (c * c) == (m - 1) as real * (c * c) + c * c;
    }
  }

  lemma SpikeMoments(n: nat)
    requires n > 0
    ensures Mean(Spike(n)) == 1.0 && Variance(Spike(n)) == (n - 1) as real
  {
    var s, x := Spike(n), n as real;
    assert s[..n - 1] == seq(n - 1, _ => 0.0) && s[n - 1] == x;
    FlatSums(n - 1, 1.0);
    assert Sum(s) == 0.0 + x;
    assert x / x == 1.0;
    assert SquaredDeviation(s, 1.0) == (x - 1.0) + (x - 1.0) * (x - 1.0);
    SpikeQuotient(x);
  }

  lemma SpikeQuotient(x: real)
    requires x > 0.0
    ensures ((x - 1.0) + (x - 1.0) * (x - 1.0)) / x == x - 1.0
  {
    var total := (x - 1.0) + (x - 1.0) * (x - 1.0);
    assert total == x * (x - 1.0);
    QuotientCancel(total, x, x - 1.0);
  }

  /** Penetration of a close r standard deviations r above the mean. */
  lemma SpikePenetration(k: real, r: real)
    requires k > 0.0 && r > k
    ensures Penetration(1.0 + r * r, 1.0, r, k) == (r - k) / (2.0 * k)
  {
    ProductPositive(k, r);
    ProductPositive(r - k, r);
    var w, b := 2.0 * (k * r), (r - k) / (2.0 * k);
    assert b * (2.0 * k) == r - k;
    assert b * w == (b * (2.0 * k)) * r;
    assert (b * w) / w == b;
  }

  /** The spike meets Samuelson's inequality with equality, so the cap is attained. */
  lemma SpikeAttainsBound(n: nat, k: real, r: real)
    requires n > 0 && k > 0.0 && IsRoot(r, (n - 1) as real) && r > k
    ensures IsRoot(r, Variance(Spike(n)))
    ensures Confidence(Spike(n), r, k) == Clamp01((r - k) / (2.0 * k))
  {
    SpikeMoments(n);
    SpikePenetration(k, r);
  }

  /** So does the mirrored dip, below the lower band. */
  lemma DipAttainsBound(n: nat, k: real, r: real)
    requires n > 0 && k > 0.0 && IsRoot(r, (n - 1) as real) && r > k
    ensures
      var dip := Negated(Spike(n));
      && IsRoot(r, Variance(dip)) && dip[n - 1] < Mean(dip) - k * r
      && Confidence(dip, r, k) == Clamp01((r - k) / (2.0 * k))
  {
    SpikeAttainsBound(n, k, r);
    SpikeMoments(n);
    ConfidenceIsSymmetric(Spike(n), r, k);
    ProductPositive(r - k, r);
    assert Negated(Spike(n))[n - 1] == -(n as real) && n as real == 1.0 + r * r;
  }

  /** Exactly when some window of n closes can reach a positive confidence m. */
  lemma ReachableConfidence(n: nat, k: real, r: real, m: real)
    requires n > 0 && k > 0.0 && IsRoot(r, (n - 1) as real) && 0.0 < m <= 1.0
    ensures (exists closes: seq<real>, sd: real ::
               |closes| == n && IsRoot(sd, Variance(closes)) && Confidence(closes, sd, k) >= m)
            <==> r >= k * (1.0 + 2.0 * m)
  {
    CapReaches(k, r, m);
    if r >= k * (1.0 + 2.0 * m) {
      ProductPositive(k, m);
      SpikeAttainsBound(n, k, r);
      assert |Spike(n)| == n && IsRoot(r, Variance(Spike(n))) && Confidence(Spike(n), r, k) >= m;
    }
    forall closes: seq<real>, sd: real |
        |closes| == n && IsRoot(sd, Variance(closes)) && Confidence(closes, sd, k) >= m
      ensures r >= k * (1.0 + 2.0 * m)
    {
      ConfidenceBound(closes, sd, k, r);
    }
  }

  lemma CapReaches(k: real, r: real, m: real)
    requires k > 0.0
    ensures (r - k) / (2.0 * k) >= m <==> r >= k * (1.0 + 2.0 * m)
    ensures k * (1.0 + 2.0 * m) == k + 2.0 * (k * m)
  {
    var b := (r - k) / (2.0 * k);
    assert b * (2.0 * k) == r - k;
    ScaleOrder(2.0 * k, m, b);
  }

  /** Some window gives a positive confidence exactly when k*k < n - 1. */
  lemma PositiveConfidence(n: nat, k: real, r: real)
    requires n > 0 && k > 0.0 && IsRoot(r, (n - 1) as real)
    ensures (exists closes: seq<real>, sd: real ::
               |closes| == n && IsRoot(sd, Variance(closes)) && Confidence(closes, sd, k) > 0.0)
            <==> k * k < (n - 1) as real
  {
    if k * k < r * r {
      if r <= k { RootOrder(k, r); }
      SpikeAttainsBound(n, k, r);
      QuotientOrder(r - k, 2.0 * k, 0.0);
      assert |Spike(n)| == n && IsRoot(r, Variance(Spike(n))) && Confidence(Spike(n), r, k) > 0.0;
    } else {
      RootOrder(r, k);
      QuotientOrder(r - k, 2.0 * k, 0.0);
      forall closes: seq<real>, sd: real | |closes| == n && IsRoot(sd, Variance(closes))
        ensures Confidence(closes, sd, k) <= 0.0
      {
        ConfidenceBound(closes, sd, k, r);
      }
    }
  }

  /** The shipped defaults, 20 closes and 2 deviations, stay below the 0.6 threshold. */
  lemma DefaultsNeverReachThreshold(closes: seq<real>, sd: real)
    requires |closes| == 20 && IsRoot(sd, Variance(closes))
    ensures Confidence(closes, sd, 2.0) < 0.6
  {
    // 4.36 exceeds the square root of 19.
    var x, mu := closes[19], Mean(closes);
    Samuelson(closes);
    assert (4.36 * sd) * (4.36 * sd) == 19.0096 * (sd * sd);
    RootOrder(x - mu, 4.36 * sd);
    assert (mu - x) * (mu - x) == (x - mu) * (x - mu);
    RootOrder(mu - x, 4.36 * sd);
    if sd > 0.0 {
      PenetrationBound(x - mu, sd, 2.0, 4.36);
      PenetrationBound(mu - x, sd, 2.0, 4.36);
      assert (mu + 2.0 * sd) - (mu - 2.0 * sd) == 2.0 * (2.0 * sd);
    }
  }

  // -------------------------------------------------------------------------
  // The strategy object
  // -------------------------------------------------------------------------

  function Closes(candles: seq<Kline>): (r: seq<real>)
    ensures |r| == |candles|
  {
    seq(|candles|, i requires 0 <= i < |candles| => candles[i].close)
  }

  ghost predicate Breaches(closes: seq<real>, sd: real, k: real)
    requires closes != []
  {
    var x, mu := closes[|closes| - 1], Mean(closes);
    x <= mu - k * sd || x >= mu + k * sd
  }

  /** A breach is a last close at least k*sd from the mean. */
  lemma BreachesExactlyWhen(closes: seq<real>, sd: real, k: real)
    requires closes != [] && k * sd >= 0.0
    ensures Breaches(closes, sd, k) <==> AbsR(closes[|closes| - 1] - Mean(closes)) >= k * sd
  {
  }

  class Scalper {
    var bbPeriod: real
    var bbStdDev: real
    var cooldownSeconds: real
    var minConfidence: real
    var lastSignalTimeMs: int

    constructor ()
      ensures bbPeriod == 20.0 && bbStdDev == 2.0 && cooldownSeconds == 30.0
      ensures minConfidence == 0.6 && lastSignalTimeMs == 0
    {
      bbPeriod, bbStdDev, cooldownSeconds, minConfidence := 20.0, 2.0, 30.0, 0.6;
      lastSignalTimeMs := 0;
    }

    /** Mean and variance of the window, by the two accumulation loops. */
    method Moments(closes: seq<real>) returns (sma: real, variance: real)
      requires closes != []
      ensures sma == Mean(closes) && variance == Variance(closes)
    {
      var sum := 0.0;
      for i := 0 to |closes|
        invariant sum == Sum(closes[..i])
      {
        assert closes[..i + 1][..i] == closes[..i];
        sum := sum + closes[i];
      }
      assert closes[..|closes|] == closes;
      sma := sum / |closes| as real;
      var sqSum := 0.0;
      for i := 0 to |closes|
        invariant sqSum == SquaredDeviation(closes[..i], sma)
      {
        assert closes[..i + 1][..i] == closes[..i];
        var diff := closes[i] - sma;
        sqSum := sqSum + diff * diff;
      }
      variance := sqSum / |closes| as real;
    }

    /** One closed candle. `candles` is the buffer's answer to a request for bbPeriod
        candles, `stddev` the root of their variance. The result is what reaches the
        signal callback; the cooldown restarts even when the signal is then dropped
        for low confidence. */
    method OnKline(candles: seq<Kline>, stddev: real, nowMs: int) returns (emitted: Option<Signal>)
      requires |candles| >= Truncate(bbPeriod) ==> candles != []
      requires |candles| >= Truncate(bbPeriod) ==> IsRoot(stddev, Variance(Closes(candles)))
      modifies this`lastSignalTimeMs
      ensures
        var due := nowMs - old(lastSignalTimeMs) >= Truncate(cooldownSeconds * 1000.0);
        if |candles| >= Truncate(bbPeriod) && Breaches(Closes(candles), stddev, bbStdDev) && due
        then
          var closes := Closes(candles);
          var price, confidence := closes[|closes| - 1], Confidence(closes, stddev, bbStdDev);
          && lastSignalTimeMs == nowMs
          && emitted == Filtered(
               Signal(if price <= Mean(closes) - bbStdDev * stddev then BuySignal else SellSignal, confidence, price),
               minConfidence)
        else
          lastSignalTimeMs == old(lastSignalTimeMs) && emitted == None
      ensures |candles| == 20 && bbStdDev == 2.0 && minConfidence == 0.6 && bbPeriod == 20.0 ==> emitted == None
    {
      var period := Truncate(bbPeriod);
      if |candles| < period {
        return None;
      }
      var closes := Closes(candles);
      var sma, variance := Moments(closes);
      var upper, lower := sma + bbStdDev * stddev, sma - bbStdDev * stddev;
      var width := upper - lower;
      var price := closes[|closes| - 1];
      var oversold, overbought := price <= lower, price >= upper;
      if |candles| == 20 && bbStdDev == 2.0 {
        DefaultsNeverReachThreshold(closes, stddev);
      }
      if !oversold && !overbought {
        return None;
      }
      if nowMs - lastSignalTimeMs < Truncate(cooldownSeconds * 1000.0) {
        return None;
      }
      var confidence := 0.0;
      if width > 0.0 {
        if oversold {
          confidence := (lower - price) / width;
        } else {
          confidence := (price - upper) / width;
        }
      }
      confidence := Clamp01(confidence);
      emitted := Filtered(Signal(if oversold then BuySignal else SellSignal, confidence, price), minConfidence);
      lastSignalTimeMs := nowMs;
    }
  }
}
