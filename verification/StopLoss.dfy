/** The stop-loss engine: fixed, trailing and time-based stops. */
module StopLoss {
  import opened RealMath
  import opened Types

  const NS_PER_SECOND := 1_000_000_000

  datatype StopMode = Fixed | Trailing | TimeBased

  datatype StopConfig = StopConfig(mode: StopMode, fixedPct: real, trailingPct: real, maxHoldSeconds: nat)

  datatype TrackedStop = TrackedStop(config: StopConfig, entryPrice: real, side: Side, openTime: int, bestPrice: real)

  /** The best price after one more price is seen. */
  function SawPrice(t: TrackedStop, current: real): TrackedStop {
    if t.side.Buy? && current > t.bestPrice then t.(bestPrice := current)
    else if t.side.Sell? && current < t.bestPrice then t.(bestPrice := current)
    else t
  }

  function Triggers(t: TrackedStop, current: real, now: int): bool {
    match t.config.mode
    case Fixed =>
      if t.side.Buy? then current <= t.entryPrice * (1.0 - t.config.fixedPct)
      else current >= t.entryPrice * (1.0 + t.config.fixedPct)
    case Trailing =>
      if t.side.Buy? then current <= t.bestPrice * (1.0 - t.config.trailingPct)
      else current >= t.bestPrice * (1.0 + t.config.trailingPct)
    case TimeBased => Quotient(now - t.openTime, NS_PER_SECOND) >= t.config.maxHoldSeconds
  }

  /** The tracked stop after a run of evaluations at the given prices. */
  function SawAll(t: TrackedStop, prices: seq<real>): TrackedStop {
    if prices == [] then t else SawPrice(SawAll(t, prices[..|prices| - 1]), prices[|prices| - 1])
  }

  /** Price level at which a trailing stop fires. */
  function TrailLevel(t: TrackedStop): real {
    if t.side.Buy? then t.bestPrice * (1.0 - t.config.trailingPct) else t.bestPrice * (1.0 + t.config.trailingPct)
  }

  /** `x` is the most favourable of `start` and `prices`. */
  ghost predicate IsExtremum(x: real, start: real, prices: seq<real>, side: Side) {
    && (x == start || exists i :: 0 <= i < |prices| && prices[i] == x)
    && (if side.Buy? then start <= x else x <= start)
    && forall i | 0 <= i < |prices| :: if side.Buy? then prices[i] <= x else x <= prices[i]
  }

  /** The best price is the running maximum (long) or minimum (short) of the entry and
      every price seen; nothing else about the stop changes. */
  lemma {:induction false} BestIsExtremum(t: TrackedStop, prices: seq<real>)
    ensures
      var t' := SawAll(t, prices);
      && IsExtremum(t'.bestPrice, t.bestPrice, prices, t.side)
      && t' == t.(bestPrice := t'.bestPrice)
  {
    if prices != [] {
      var before := prices[..|prices| - 1];
      BestIsExtremum(t, before);
      var x := SawAll(t, before).bestPrice;
      if x != t.bestPrice {
        var i :| 0 <= i < |before| && before[i] == x;
        assert prices[i] == x;
      }
      assert prices[|prices| - 1] == prices[|prices| - 1];
    }
  }

  lemma ExtremumUnique(x: real, y: real, start: real, prices: seq<real>, side: Side)
    requires IsExtremum(x, start, prices, side) && IsExtremum(y, start, prices, side)
    ensures x == y
  {
  }

  /** A trailing stop with best price `best` fires exactly when `current` has given back
      the fraction or more. */
  lemma RetraceAlgebra(t: TrackedStop, current: real, now: int)
    requires t.config.mode == Trailing
    ensures
      var given_back := if t.side.Buy? then t.bestPrice - current else current - t.bestPrice;
      Triggers(t, current, now) <==> given_back >= t.config.trailingPct * t.bestPrice
  {
    assert t.bestPrice * (1.0 - t.config.trailingPct) == t.bestPrice - t.config.trailingPct * t.bestPrice;
    assert t.bestPrice * (1.0 + t.config.trailingPct) == t.bestPrice + t.config.trailingPct * t.bestPrice;
  }

  /** A trailing stop fires exactly when the latest price has given back trailingPct or
      more of the extremum of the entry and all prices so far, itself included. */
  lemma TrailingFiresExactlyOnRetrace(t: TrackedStop, prices: seq<real>, now: int, best: real)
    requires t.config.mode == Trailing && prices != []
    requires IsExtremum(best, t.bestPrice, prices, t.side)
    ensures
      var last := prices[|prices| - 1];
      var given_back := if t.side.Buy? then best - last else last - best;
      Triggers(SawAll(t, prices), last, now) <==> given_back >= t.config.trailingPct * best
  {
    hide Triggers, SawAll, IsExtremum;
    BestIsExtremum(t, prices);
    ExtremumUnique(best, SawAll(t, prices).bestPrice, t.bestPrice, prices, t.side);
    RetraceAlgebra(SawAll(t, prices), prices[|prices| - 1], now);
  }

  /** A fixed stop fires exactly when the position has lost the fraction or more of its entry
      price, whatever its best price was. */
  lemma FixedFiresExactlyOnLoss(t: TrackedStop, prices: seq<real>, now: int)
    requires t.config.mode == Fixed && prices != []
    ensures
      var last := prices[|prices| - 1];
      var lost := if t.side.Buy? then t.entryPrice - last else last - t.entryPrice;
      Triggers(SawAll(t, prices), last, now) <==> lost >= t.config.fixedPct * t.entryPrice
  {
    hide SawAll;
    BestIsExtremum(t, prices);
    assert t.entryPrice * (1.0 - t.config.fixedPct) == t.entryPrice - t.config.fixedPct * t.entryPrice;
    assert t.entryPrice * (1.0 + t.config.fixedPct) == t.entryPrice + t.config.fixedPct * t.entryPrice;
  }

  /** A timed stop fires exactly when the position has been held for the configured seconds,
      at any price; with none configured, also up to a second before it was opened. */
  lemma TimedFiresExactlyAfter(t: TrackedStop, prices: seq<real>, last: real, now: int)
    requires t.config.mode == TimeBased
    ensures
      var held := now - t.openTime;
      Triggers(SawAll(t, prices), last, now) <==>
        if t.config.maxHoldSeconds == 0 then held > -1_000_000_000 else held >= t.config.maxHoldSeconds * 1_000_000_000
  {
    hide SawAll;
    BestIsExtremum(t, prices);
    QuotientCutsOff(now - t.openTime, NS_PER_SECOND);
  }

  /** No move of the trigger level against the position. */
  ghost predicate NoLooser(t: TrackedStop, t': TrackedStop) {
    if t.side.Buy? then TrailLevel(t) <= TrailLevel(t') else TrailLevel(t') <= TrailLevel(t)
  }

  lemma OnePriceNeverLoosens(t: TrackedStop, price: real)
    requires -1.0 <= t.config.trailingPct <= 1.0
    ensures NoLooser(t, SawPrice(t, price))
    ensures SawPrice(t, price).config == t.config && SawPrice(t, price).side == t.side
  {
    hide SawPrice, NoLooser;
    BestOnlyImproves(t, price);
    LevelFollowsBest(t, SawPrice(t, price).bestPrice);
  }

  lemma BestOnlyImproves(t: TrackedStop, price: real)
    ensures
      var t' := SawPrice(t, price);
      && t' == t.(bestPrice := t'.bestPrice)
      && if t.side.Buy? then t.bestPrice <= t'.bestPrice else t'.bestPrice <= t.bestPrice
  {
  }

  lemma LevelFollowsBest(t: TrackedStop, best: real)
    requires -1.0 <= t.config.trailingPct <= 1.0
    requires if t.side.Buy? then t.bestPrice <= best else best <= t.bestPrice
    ensures NoLooser(t, t.(bestPrice := best))
  {
    if t.side.Buy? {
      ScaleKeeps(1.0 - t.config.trailingPct, t.bestPrice, best);
    } else {
      ScaleKeeps(1.0 + t.config.trailingPct, best, t.bestPrice);
    }
  }

  /** Further prices never move the trigger level against the position; the configuration
      check admits fractions in (0, 0.5] only. */
  lemma {:induction false} TrailNeverLoosens(t: TrackedStop, prices: seq<real>, more: seq<real>)
    requires -1.0 <= t.config.trailingPct <= 1.0
    ensures NoLooser(SawAll(t, prices), SawAll(t, prices + more))
    decreases |more|
  {
    hide TrailLevel;
    if more == [] {
      assert prices + more == prices;
    } else {
      var shorter := more[..|more| - 1];
      assert (prices + more)[..|prices + more| - 1] == prices + shorter;
      TrailNeverLoosens(t, prices, shorter);
      BestIsExtremum(t, prices);
      BestIsExtremum(t, prices + shorter);
      OnePriceNeverLoosens(SawAll(t, prices + shorter), more[|more| - 1]);
    }
  }

  // -------------------------------------------------------------------------
  // The engine object
  // -------------------------------------------------------------------------

  class Engine {
    const defaultConfig: StopConfig
    var tracked: map<string, TrackedStop>

    constructor (defaultConfig: StopConfig)
      ensures this.defaultConfig == defaultConfig && tracked == map[]
    {
      this.defaultConfig := defaultConfig;
      tracked := map[];
    }

    /** A fixed stop at distance 0 asks for the engine's default. */
    method RegisterPosition(id: string, entryPrice: real, side: Side, openTime: int, config: StopConfig)
      modifies this`tracked
      ensures tracked == old(tracked)[id := TrackedStop(
                if config.mode == Fixed && config.fixedPct == 0.0 then defaultConfig else config,
                entryPrice, side, openTime, entryPrice)]
    {
      var chosen := if config.mode == Fixed && config.fixedPct == 0.0 then defaultConfig else config;
      tracked := tracked[id := TrackedStop(chosen, entryPrice, side, openTime, entryPrice)];
    }

    method RemovePosition(id: string)
      modifies this`tracked
      ensures tracked == old(tracked) - {id}
    {
      tracked := tracked - {id};
    }

    /** `current` holds the mark prices of the positions still open. Every tracked one
        among them sees its price, and exactly those whose stop then fires are
        returned, each once. */
    method Evaluate(current: map<string, real>, now: int) returns (triggered: seq<string>)
      modifies this`tracked
      ensures tracked.Keys == old(tracked).Keys
      ensures forall id <- tracked :: tracked[id] ==
                (if id in current then SawPrice(old(tracked)[id], current[id]) else old(tracked)[id])
      ensures forall id :: id in triggered <==> id in tracked && id in current && Triggers(tracked[id], current[id], now)
      ensures forall i, j | 0 <= i < j < |triggered| :: triggered[i] != triggered[j]
    {
      triggered := [];
      var rest := tracked.Keys;
      while rest != {}
        invariant rest <= tracked.Keys == old(tracked).Keys
        invariant forall id | id in tracked :: tracked[id] ==
                    (if id !in rest && id in current then SawPrice(old(tracked)[id], current[id]) else old(tracked)[id])
        invariant forall id :: id in triggered <==>
                    id in tracked && id !in rest && id in current && Triggers(tracked[id], current[id], now)
        invariant forall i, j | 0 <= i < j < |triggered| :: triggered[i] != triggered[j]
        decreases rest
      {
        var id :| id in rest;
        rest := rest - {id};
        if id in current {
          var stop := SawPrice(tracked[id], current[id]);
          tracked := tracked[id := stop];
          if Triggers(stop, current[id], now) {
            triggered := triggered + [id];
          }
        }
      }
    }
  }
}
