/** The take-profit ladder: partial closes at rising price targets, in order. */
module TakeProfit {
  import opened RealMath
  import opened Types

  datatype LadderConfig = LadderConfig(enabled: bool, targetsPct: seq<real>, fractions: seq<real>)

  datatype TrackedLadder = TrackedLadder(config: LadderConfig, entryPrice: real, side: Side, next: nat)

  datatype TpSignal = TpSignal(positionId: string, closeFraction: real, targetIndex: nat)

  function TargetPrice(t: TrackedLadder, k: nat): real
    requires k < |t.config.targetsPct|
  {
    if t.side.Buy? then t.entryPrice * (1.0 + t.config.targetsPct[k])
    else t.entryPrice * (1.0 - t.config.targetsPct[k])
  }

  /** The price is at or beyond target k. */
  predicate Reaches(t: TrackedLadder, k: nat, price: real)
    requires k < |t.config.targetsPct|
  {
    if t.side.Buy? then price >= TargetPrice(t, k) else price <= TargetPrice(t, k)
  }

  predicate Fires(t: TrackedLadder, price: real) {
    t.next < |t.config.targetsPct| && Reaches(t, t.next, price)
  }

  /** Without a fraction of its own a target closes everything. */
  function FractionOf(config: LadderConfig, k: nat): real {
    if k < |config.fractions| then config.fractions[k] else 1.0
  }

  function Evaluated(t: TrackedLadder, price: real): TrackedLadder {
    if Fires(t, price) then t.(next := t.next + 1) else t
  }

  /** One position over a run of evaluations: the signals, each with the number of the
      evaluation that gave it. */
  datatype Fired = Fired(at: nat, index: nat, fraction: real)

  function Ladder(t: TrackedLadder, prices: seq<real>): (TrackedLadder, seq<Fired>) {
    if prices == [] then (t, [])
    else
      var n := |prices| - 1;
      var (before, fired) := Ladder(t, prices[..n]);
      if Fires(before, prices[n]) then
        (Evaluated(before, prices[n]), fired + [Fired(n, before.next, FractionOf(t.config, before.next))])
      else (before, fired)
  }

  /** No evaluation in [from, until) reaches target k. */
  ghost predicate NotReached(t: TrackedLadder, prices: seq<real>, k: nat, from: nat, until: nat)
    requires k < |t.config.targetsPct| && until <= |prices|
  {
    forall j | from <= j < until :: !Reaches(t, k, prices[j])
  }

  /** Where the search for the i-th signal starts: after the previous one. */
  function After(fired: seq<Fired>, i: nat): nat
    requires i <= |fired|
  {
    if i == 0 then 0 else fired[i - 1].at + 1
  }

  /** Signal i carries index t.next + i and comes at the first evaluation after the one
      before it whose price reaches its target. */
  ghost predicate InTurn(t: TrackedLadder, prices: seq<real>, fired: seq<Fired>, i: nat)
    requires i < |fired|
  {
    && fired[i].index == t.next + i < |t.config.targetsPct|
    && fired[i].fraction == FractionOf(t.config, t.next + i)
    && After(fired, i) <= fired[i].at < |prices|
    && Reaches(t, t.next + i, prices[fired[i].at])
    && NotReached(t, prices, t.next + i, After(fired, i), fired[i].at)
  }

  /** Every signal comes in its turn, and the target after the last one was not reached since. */
  ghost predicate IsLadder(t: TrackedLadder, prices: seq<real>, fired: seq<Fired>) {
    && (forall i | 0 <= i < |fired| :: InTurn(t, prices, fired, i))
    && (t.next + |fired| < |t.config.targetsPct| ==>
          NotReached(t, prices, t.next + |fired|, After(fired, |fired|), |prices|))
  }

  lemma InTurnExtends(t: TrackedLadder, prices: seq<real>, more: seq<real>, fired: seq<Fired>, later: seq<Fired>, i: nat)
    requires i < |fired| && InTurn(t, prices, fired, i)
    ensures InTurn(t, prices + more, fired + later, i)
  {
    hide Reaches;
    assert After(fired + later, i) == After(fired, i);
  }

  /** One more evaluation extends the ladder by at most its next rung. */
  lemma LadderStep(t: TrackedLadder, prices: seq<real>, fired: seq<Fired>, price: real)
    requires IsLadder(t, prices, fired)
    requires forall i | 0 <= i < |fired| :: fired[i].at < |prices|
    ensures
      var k := t.next + |fired|;
      if k < |t.config.targetsPct| && Reaches(t, k, price) then
        IsLadder(t, prices + [price], fired + [Fired(|prices|, k, FractionOf(t.config, k))])
      else
        IsLadder(t, prices + [price], fired)
  {
    hide Reaches;
    var k := t.next + |fired|;
    forall i | 0 <= i < |fired|
      ensures InTurn(t, prices + [price], fired, i)
      ensures InTurn(t, prices + [price], fired + [Fired(|prices|, k, FractionOf(t.config, k))], i)
    {
      InTurnExtends(t, prices, [price], fired, [], i);
      assert fired + [] == fired;
      InTurnExtends(t, prices, [price], fired, [Fired(|prices|, k, FractionOf(t.config, k))], i);
    }
  }

  /** Over any run a position's signals carry indices 0, 1, 2, ... from its next target
      on, none skipped or repeated, each at the first evaluation that reaches it. */
  lemma {:induction false} LadderInOrder(t: TrackedLadder, prices: seq<real>)
    ensures
      var (t', fired) := Ladder(t, prices);
      t' == t.(next := t.next + |fired|) && IsLadder(t, prices, fired)
  {
    hide Reaches;
    if prices != [] {
      var n := |prices| - 1;
      LadderInOrder(t, prices[..n]);
      var (before, fired) := Ladder(t, prices[..n]);
      forall i | 0 <= i < |fired|
        ensures fired[i].at < n
      {
        assert InTurn(t, prices[..n], fired, i);
      }
      LadderStep(t, prices[..n], fired, prices[n]);
      assert prices[..n] + [prices[n]] == prices;
      SameTargets(t, before, prices[n]);
    }
  }

  lemma SameTargets(t: TrackedLadder, t': TrackedLadder, price: real)
    requires t' == t.(next := t'.next)
    ensures forall k: nat | k < |t.config.targetsPct| :: Reaches(t', k, price) <==> Reaches(t, k, price)
  {
  }

  /** A target is reached exactly when the position has gained its fraction or more of the
      entry price. */
  lemma ReachesExactlyOnGain(t: TrackedLadder, k: nat, price: real)
    requires k < |t.config.targetsPct|
    ensures
      var gained := if t.side.Buy? then price - t.entryPrice else t.entryPrice - price;
      Reaches(t, k, price) <==> gained >= t.config.targetsPct[k] * t.entryPrice
  {
    assert t.entryPrice * (1.0 + t.config.targetsPct[k]) == t.entryPrice + t.config.targetsPct[k] * t.entryPrice;
    assert t.entryPrice * (1.0 - t.config.targetsPct[k]) == t.entryPrice - t.config.targetsPct[k] * t.entryPrice;
  }

  /** Prices mirrored at the entry. */
  function Mirrored(entry: real, prices: seq<real>): (r: seq<real>)
    ensures |r| == |prices|
  {
    seq(|prices|, i requires 0 <= i < |prices| => 2.0 * entry - prices[i])
  }

  /** Over any run a short position signals what the long one signals for the mirrored
      prices, at the same evaluations. */
  lemma {:induction false} ShortMirrorsLong(t: TrackedLadder, prices: seq<real>)
    requires t.side.Sell?
    ensures
      var long := t.(side := Buy);
      && Ladder(t, prices).1 == Ladder(long, Mirrored(t.entryPrice, prices)).1
      && Ladder(t, prices).0.next == Ladder(long, Mirrored(t.entryPrice, prices)).0.next
  {
    hide Reaches;
    if prices != [] {
      var n, long, mirrored := |prices| - 1, t.(side := Buy), Mirrored(t.entryPrice, prices);
      ShortMirrorsLong(t, prices[..n]);
      assert mirrored[..n] == Mirrored(t.entryPrice, prices[..n]);
      LadderInOrder(t, prices[..n]);
      LadderInOrder(long, mirrored[..n]);
      var a, b := Ladder(t, prices[..n]).0, Ladder(long, mirrored[..n]).0;
      if a.next < |t.config.targetsPct| {
        ReachesExactlyOnGain(a, a.next, prices[n]);
        ReachesExactlyOnGain(b, b.next, mirrored[n]);
      }
    }
  }

  /** Two ladders for the same prices that agree below k agree at k. */
  lemma NextRungAgrees(t: TrackedLadder, prices: seq<real>, a: seq<Fired>, b: seq<Fired>, k: nat)
    requires IsLadder(t, prices, a) && IsLadder(t, prices, b)
    requires k < |a| && k <= |b| && a[..k] == b[..k]
    ensures k < |b| && a[k] == b[k]
  {
    hide Reaches;
    assert After(a, k) == After(b, k) by {
      if k > 0 { assert a[k - 1] == a[..k][k - 1] == b[k - 1]; }
    }
    assert InTurn(t, prices, a, k);
    if k < |b| {
      assert InTurn(t, prices, b, k);
    }
  }

  lemma {:induction false} LaddersAgree(t: TrackedLadder, prices: seq<real>, a: seq<Fired>, b: seq<Fired>, i: nat)
    requires IsLadder(t, prices, a) && IsLadder(t, prices, b) && i <= |a|
    ensures i <= |b| && a[..i] == b[..i]
  {
    if i > 0 {
      LaddersAgree(t, prices, a, b, i - 1);
      NextRungAgrees(t, prices, a, b, i - 1);
      assert a[..i] == a[..i - 1] + [a[i - 1]] && b[..i] == b[..i - 1] + [b[i - 1]];
    }
  }

  /** The prices alone determine the signals. */
  lemma LadderIsUnique(t: TrackedLadder, prices: seq<real>, a: seq<Fired>, b: seq<Fired>)
    requires IsLadder(t, prices, a) && IsLadder(t, prices, b)
    ensures a == b
  {
    LaddersAgree(t, prices, a, b, |a|);
    LaddersAgree(t, prices, b, a, |b|);
  }

  // -------------------------------------------------------------------------
  // Fractions
  // -------------------------------------------------------------------------

  function Fractions(fired: seq<Fired>): seq<real> {
    seq(|fired|, i requires 0 <= i < |fired| => fired[i].fraction)
  }

  /** What the configuration validator demands of an enabled ladder. */
  ghost predicate Validated(config: LadderConfig) {
    config.enabled ==> |config.targetsPct| == |config.fractions| && Sum(config.fractions) <= 1.0 + 1.0e-9
  }

  method ValidateLadder(config: LadderConfig) returns (ok: bool)
    ensures ok <==> Validated(config)
  {
    if !config.enabled {
      return true;
    }
    if |config.targetsPct| != |config.fractions| {
      return false;
    }
    var sum := 0.0;
    for i := 0 to |config.fractions|
      invariant sum == Sum(config.fractions[..i])
    {
      assert config.fractions[..i + 1][..i] == config.fractions[..i];
      sum := sum + config.fractions[i];
    }
    assert config.fractions[..|config.fractions|] == config.fractions;
    return !(sum > 1.0 + 1.0e-9);
  }

  lemma {:induction false} PrefixSumAtMost(xs: seq<real>, k: nat)
    requires k <= |xs| && forall i | 0 <= i < |xs| :: xs[i] >= 0.0
    ensures Sum(xs[..k]) <= Sum(xs)
    decreases |xs|
  {
    if k == |xs| {
      assert xs[..k] == xs;
    } else {
      PrefixSumAtMost(xs[..|xs| - 1], k);
      assert xs[..|xs| - 1][..k] == xs[..k];
    }
  }

  /** The fraction each target closes: a missing one closes everything. The engine never
      asks whether the ladder is enabled. */
  function Effective(config: LadderConfig): (r: seq<real>)
    ensures |r| == |config.targetsPct|
  {
    seq(|config.targetsPct|, k requires 0 <= k < |config.targetsPct| => FractionOf(config, k))
  }

  /** The fractions signalled in a run are a prefix of the effective ones. */
  lemma SignalsArePrefix(t: TrackedLadder, prices: seq<real>)
    requires t.next == 0
    ensures
      var fired := Ladder(t, prices).1;
      |fired| <= |t.config.targetsPct| && Fractions(fired) == Effective(t.config)[..|fired|]
  {
    hide Reaches;
    LadderInOrder(t, prices);
    var fired := Ladder(t, prices).1;
    forall i | 0 <= i < |fired|
      ensures i < |t.config.targetsPct| && fired[i].fraction == Effective(t.config)[i]
    {
      assert InTurn(t, prices, fired, i);
    }
    assert |fired| <= |t.config.targetsPct| by {
      if fired != [] { assert fired[|fired| - 1].fraction == Effective(t.config)[|fired| - 1]; }
    }
  }

  /** Over any run from registration, the fractions signalled never exceed the sum of the
      effective ones, when none of these is negative. */
  lemma SignalledAtMostSum(t: TrackedLadder, prices: seq<real>)
    requires t.next == 0 && forall i | 0 <= i < |Effective(t.config)| :: Effective(t.config)[i] >= 0.0
    ensures Signalled(t, prices) <= Sum(Effective(t.config))
  {
    SignalsArePrefix(t, prices);
    PrefixSumAtMost(Effective(t.config), |Ladder(t, prices).1|);
  }

  /** So a validated, enabled ladder of non-negative fractions never signals more than the
      whole position. */
  lemma NeverClosesMoreThanAll(t: TrackedLadder, prices: seq<real>)
    requires t.next == 0 && t.config.enabled && Validated(t.config)
    requires forall i | 0 <= i < |t.config.fractions| :: t.config.fractions[i] >= 0.0
    ensures Signalled(t, prices) <= 1.0 + 1.0e-9
  {
    assert Effective(t.config) == t.config.fractions;
    SignalledAtMostSum(t, prices);
  }

  /** A price beyond the first k targets. */
  function Beyond(t: TrackedLadder, k: nat): real
    requires k <= |t.config.targetsPct|
  {
    if k == 0 then 0.0
    else if t.side.Buy? then MaxR(Beyond(t, k - 1), TargetPrice(t, k - 1))
    else MinR(Beyond(t, k - 1), TargetPrice(t, k - 1))
  }

  lemma {:induction false} BeyondReaches(t: TrackedLadder, k: nat, i: nat)
    requires i < k <= |t.config.targetsPct|
    ensures Reaches(t, i, Beyond(t, k))
    decreases k
  {
    if i < k - 1 {
      BeyondReaches(t, k - 1, i);
    }
  }

  /** Held beyond every target, the price climbs one rung at each evaluation. */
  lemma {:induction false} ClimbsEachTime(t: TrackedLadder, price: real, k: nat)
    requires t.next == 0 && k <= |t.config.targetsPct|
    requires forall i: nat | i < |t.config.targetsPct| :: Reaches(t, i, price)
    ensures |Ladder(t, seq(k, _ => price)).1| == k
  {
    hide Reaches;
    var prices := seq(k, _ => price);
    LadderInOrder(t, prices);
    if k > 0 {
      assert prices[..k - 1] == seq(k - 1, _ => price);
      ClimbsEachTime(t, price, k - 1);
      LadderInOrder(t, prices[..k - 1]);
      SameTargets(t, Ladder(t, prices[..k - 1]).0, price);
    }
  }

  function Signalled(t: TrackedLadder, prices: seq<real>): real {
    Sum(Fractions(Ladder(t, prices).1))
  }

  /** No run of prices ever signals more than `limit` of the position. */
  ghost predicate AlwaysWithin(t: TrackedLadder, limit: real) {
    forall prices: seq<real> :: Signalled(t, prices) <= limit
  }

  ghost predicate PrefixesWithin(xs: seq<real>, limit: real) {
    forall k | 0 <= k <= |xs| :: Sum(xs[..k]) <= limit
  }

  /** For every ladder the engine can be given: the signals of every run stay within a
      limit exactly when every prefix sum of the effective fractions does. */
  lemma WithinLimitExactlyWhen(t: TrackedLadder, limit: real)
    requires t.next == 0
    ensures AlwaysWithin(t, limit) <==> PrefixesWithin(Effective(t.config), limit)
  {
    hide Reaches, Ladder;
    var n := |t.config.targetsPct|;
    if PrefixesWithin(Effective(t.config), limit) {
      forall prices: seq<real> ensures Signalled(t, prices) <= limit { SignalsArePrefix(t, prices); }
    }
    if AlwaysWithin(t, limit) {
      var price := Beyond(t, n);
      forall i: nat | i < n ensures Reaches(t, i, price) { BeyondReaches(t, n, i); }
      forall k | 0 <= k <= n
        ensures Sum(Effective(t.config)[..k]) <= limit
      {
        ClimbsEachTime(t, price, k);
        SignalsArePrefix(t, seq(k, _ => price));
        assert Signalled(t, seq(k, _ => price)) <= limit;
      }
    }
  }

  /** The validator bounds only the sum of all fractions and admits negative ones: a ladder
      it accepts signals twice the position at its first target. */
  lemma NegativeFractionClosesTwice()
    ensures
      var config := LadderConfig(true, [0.01, 0.02], [2.0, -1.0]);
      Validated(config) && Signalled(TrackedLadder(config, 100.0, Buy, 0), [101.0]) == 2.0
  {
    var config := LadderConfig(true, [0.01, 0.02], [2.0, -1.0]);
    var t := TrackedLadder(config, 100.0, Buy, 0);
    assert [2.0, -1.0][..1] == [2.0] && [2.0][..0] == [];
    assert Sum([2.0]) == 2.0 && Sum(config.fractions) == 1.0;
    LadderAppend(t, [], 101.0);
    assert Fractions([Fired(0, 0, 2.0)]) == [2.0];
  }

  /** The validator does not look at a disabled ladder, and the engine runs it all the
      same: without fractions each of its two targets closes the whole position. */
  lemma DisabledLadderClosesTwice()
    ensures
      var config := LadderConfig(false, [0.01, 0.02], []);
      Validated(config) && Signalled(TrackedLadder(config, 100.0, Buy, 0), [101.0, 102.0]) == 2.0
  {
    var t := TrackedLadder(LadderConfig(false, [0.01, 0.02], []), 100.0, Buy, 0);
    LadderAppend(t, [], 101.0);
    LadderAppend(t, [101.0], 102.0);
    assert Ladder(t, [101.0, 102.0]).1 == [Fired(0, 0, 1.0), Fired(1, 1, 1.0)];
    assert Fractions([Fired(0, 0, 1.0), Fired(1, 1, 1.0)]) == [1.0, 1.0];
    assert [1.0, 1.0][..1] == [1.0] && [1.0][..0] == [];
    assert Sum([1.0]) == 1.0;
  }

  lemma LadderAppend(t: TrackedLadder, prices: seq<real>, price: real)
    ensures
      var (before, fired) := Ladder(t, prices);
      Ladder(t, prices + [price]) ==
        if Fires(before, price) then
          (Evaluated(before, price), fired + [Fired(|prices|, before.next, FractionOf(t.config, before.next))])
        else (before, fired)
  {
    assert (prices + [price])[..|prices|] == prices;
  }

  // -------------------------------------------------------------------------
  // The engine object
  // -------------------------------------------------------------------------

  class Engine {
    const defaultConfig: LadderConfig
    var tracked: map<string, TrackedLadder>

    constructor (defaultConfig: LadderConfig)
      ensures this.defaultConfig == defaultConfig && tracked == map[]
    {
      this.defaultConfig := defaultConfig;
      tracked := map[];
    }

    method RegisterPosition(id: string, entryPrice: real, side: Side, config: LadderConfig)
      modifies this`tracked
      ensures tracked == old(tracked)[id := TrackedLadder(
                if config.targetsPct == [] then defaultConfig else config, entryPrice, side, 0)]
    {
      tracked := tracked[id := TrackedLadder(
        if config.targetsPct == [] then defaultConfig else config, entryPrice, side, 0)];
    }

    method RemovePosition(id: string)
      modifies this`tracked
      ensures tracked == old(tracked) - {id}
    {
      tracked := tracked - {id};
    }

    /** -1 for a position that is not tracked. */
    method NextTargetIndex(id: string) returns (index: int)
      ensures index == if id in tracked then tracked[id].next else -1
    {
      if id !in tracked {
        return -1;
      }
      return tracked[id].next;
    }

    /** Each tracked position with a price takes one ladder step; exactly those that
        fire are signalled, once each, with the target they just reached. */
    method Evaluate(current: map<string, real>) returns (signals: seq<TpSignal>)
      modifies this`tracked
      ensures tracked.Keys == old(tracked).Keys
      ensures forall id <- tracked :: tracked[id] ==
                (if id in current then Evaluated(old(tracked)[id], current[id]) else old(tracked)[id])
      ensures forall s :: s in signals <==>
                && s.positionId in old(tracked) && s.positionId in current
                && Fires(old(tracked)[s.positionId], current[s.positionId])
                && s == TpSignal(s.positionId,
                          FractionOf(old(tracked)[s.positionId].config, old(tracked)[s.positionId].next),
                          old(tracked)[s.positionId].next)
      ensures forall i, j | 0 <= i < j < |signals| :: signals[i].positionId != signals[j].positionId
    {
      signals := [];
      var rest := tracked.Keys;
      while rest != {}
        invariant rest <= tracked.Keys == old(tracked).Keys
        invariant forall id | id in tracked :: tracked[id] ==
                    (if id !in rest && id in current then Evaluated(old(tracked)[id], current[id]) else old(tracked)[id])
        invariant forall s :: s in signals <==>
                    && s.positionId in old(tracked) && s.positionId in current && s.positionId !in rest
                    && Fires(old(tracked)[s.positionId], current[s.positionId])
                    && s == TpSignal(s.positionId,
                              FractionOf(old(tracked)[s.positionId].config, old(tracked)[s.positionId].next),
                              old(tracked)[s.positionId].next)
        invariant forall i, j | 0 <= i < j < |signals| :: signals[i].positionId != signals[j].positionId
        decreases rest
      {
        var id :| id in rest;
        rest := rest - {id};
        if id in current {
          var ladder := tracked[id];
          if ladder.next < |ladder.config.targetsPct| {
            if Reaches(ladder, ladder.next, current[id]) {
              signals := signals + [TpSignal(id, FractionOf(ladder.config, ladder.next), ladder.next)];
              tracked := tracked[id := ladder.(next := ladder.next + 1)];
            }
          }
        }
      }
    }
  }
}
