/** The drawdown circuit breaker: a latch set by equity reports and cleared by hand. */
module DrawdownGuard {
  import opened RealMath
  import opened Types

  datatype Thresholds = Thresholds(maxDaily: real, maxTotal: real)

  datatype Guard = Guard(peak: real, dailyStart: real, current: real, halted: bool, reason: ErrorCode)

  const FRESH := Guard(0.0, 0.0, 0.0, false, NoError)

  function Exceeds(reference: real, equity: real, limit: real): bool {
    reference > 0.0 && (reference - equity) / reference > limit
  }

  function UpdateEquity(g: Guard, t: Thresholds, equity: real): Guard {
    var peak := MaxR(g.peak, equity);
    var start := if g.dailyStart == 0.0 then equity else g.dailyStart;
    var breach := Exceeds(start, equity, t.maxDaily) || Exceeds(peak, equity, t.maxTotal);
    Guard(peak, start, equity, g.halted || breach, if breach then DrawdownLimitHit else g.reason)
  }

  // -------------------------------------------------------------------------
  // Halting, told from the history alone
  // -------------------------------------------------------------------------

  /** clearHalt takes no lock: its two stores can have other calls between them. */
  datatype Event = Report(equity: real) | ResetDaily | ClearFlag | ClearReason

  function Apply(g: Guard, t: Thresholds, e: Event): Guard {
    match e
    case Report(equity) => UpdateEquity(g, t, equity)
    case ResetDaily => g.(dailyStart := g.current)
    case ClearFlag => g.(halted := false)
    case ClearReason => g.(reason := NoError)
  }

  function Run(t: Thresholds, events: seq<Event>): Guard {
    if events == [] then FRESH else Apply(Run(t, events[..|events| - 1]), t, events[|events| - 1])
  }

  /** The last reported equity, or 0. */
  function LastReported(events: seq<Event>): real {
    if events == [] then 0.0
    else
      match events[|events| - 1]
      case Report(equity) => equity
      case _ => LastReported(events[..|events| - 1])
  }

  /** The highest equity ever reported, never below 0. */
  ghost predicate IsPeak(events: seq<Event>, peak: real) {
    && peak >= 0.0
    && (forall i | 0 <= i < |events| && events[i].Report? :: events[i].equity <= peak)
    && (peak == 0.0 || exists i :: 0 <= i < |events| && events[i] == Report(peak))
  }

  /** Equity at the start of the day: the last reported one at each daily reset, or
      the first report after the start stood at 0. */
  function DayStart(events: seq<Event>): real {
    if events == [] then 0.0
    else
      var before := events[..|events| - 1];
      match events[|events| - 1]
      case Report(equity) => if DayStart(before) == 0.0 then equity else DayStart(before)
      case ResetDaily => LastReported(before)
      case _ => DayStart(before)
  }

  /** Event i reports an equity below the allowed fraction of the peak or of the day's start. */
  ghost predicate Breach(t: Thresholds, events: seq<Event>, i: nat)
    requires i < |events|
  {
    && events[i].Report?
    && var so_far, equity := events[..i + 1], events[i].equity;
       || (DayStart(so_far) > 0.0 && Below(equity, DayStart(so_far), t.maxDaily))
       || (exists peak :: IsPeak(so_far, peak) && peak > 0.0 && Below(equity, peak, t.maxTotal))
  }

  /** More than the fraction `limit` of the reference is lost. */
  predicate Below(equity: real, reference: real, limit: real) {
    equity < reference * (1.0 - limit)
  }

  /** Some breach has not been followed by the given clearing store. */
  ghost predicate BreachSince(t: Thresholds, events: seq<Event>, clear: Event) {
    exists i: nat :: i < |events| && Breach(t, events, i) && forall j | i < j < |events| :: events[j] != clear
  }

  lemma ExceedsIsFraction(reference: real, equity: real, limit: real)
    ensures Exceeds(reference, equity, limit) <==> reference > 0.0 && Below(equity, reference, limit)
  {
    if reference > 0.0 {
      QuotientOrder(reference - equity, reference, limit);
      assert limit * reference == reference - reference * (1.0 - limit);
    }
  }

  lemma PeakUnique(events: seq<Event>, a: real, b: real)
    requires IsPeak(events, a) && IsPeak(events, b)
    ensures a == b
  {
  }

  lemma {:induction false} StateFollowsHistory(t: Thresholds, events: seq<Event>)
    ensures
      var g := Run(t, events);
      && IsPeak(events, g.peak)
      && g.dailyStart == DayStart(events) && g.current == LastReported(events)
  {
    if events != [] {
      var before, e := events[..|events| - 1], events[|events| - 1];
      StateFollowsHistory(t, before);
      var g, g' := Run(t, before), Run(t, events);
      if g'.peak == g.peak && g.peak != 0.0 {
        var i :| 0 <= i < |before| && before[i] == Report(g.peak);
        assert events[i] == Report(g'.peak);
      } else if g'.peak != 0.0 {
        assert events[|events| - 1] == Report(g'.peak);
      }
    }
  }

  /** The last event breaches exactly when it is a report that trips either check. */
  lemma LastBreach(t: Thresholds, events: seq<Event>)
    requires events != []
    ensures
      var n := |events| - 1;
      Breach(t, events, n) <==>
        && events[n].Report?
        && var g := Run(t, events);
           Exceeds(g.dailyStart, events[n].equity, t.maxDaily) || Exceeds(g.peak, events[n].equity, t.maxTotal)
  {
    hide Exceeds, Below, Run, DayStart, IsPeak;
    var n := |events| - 1;
    assert events[..n + 1] == events;
    StateFollowsHistory(t, events);
    if events[n].Report? {
      var g, equity := Run(t, events), events[n].equity;
      ExceedsIsFraction(g.dailyStart, equity, t.maxDaily);
      ExceedsIsFraction(g.peak, equity, t.maxTotal);
      forall peak | IsPeak(events, peak) ensures peak == g.peak { PeakUnique(events, peak, g.peak); }
    }
  }

  /** Appending an event adds its own breach and, unless it is the clearing store,
      keeps the earlier ones. */
  lemma BreachSinceStep(t: Thresholds, events: seq<Event>, clear: Event)
    requires events != [] && !clear.Report?
    ensures
      var n := |events| - 1;
      BreachSince(t, events, clear) <==>
        Breach(t, events, n) || (events[n] != clear && BreachSince(t, events[..n], clear))
  {
    var n := |events| - 1;
    forall i: nat | i < n
      ensures Breach(t, events, i) <==> Breach(t, events[..n], i)
    {
      assert events[..i + 1] == events[..n][..i + 1];
    }
    if events[n] != clear && BreachSince(t, events[..n], clear) {
      var i: nat :| i < n && Breach(t, events[..n], i) && forall j | i < j < n :: events[..n][j] != clear;
      assert forall j | i < j < |events| :: events[j] != clear;
    }
    if BreachSince(t, events, clear) {
      var i: nat :| i < |events| && Breach(t, events, i) && forall j | i < j < |events| :: events[j] != clear;
      if i < n {
        assert forall j | i < j < n :: events[..n][j] != clear;
        assert events[n] != clear;
      }
    }
  }

  /** Trading is halted exactly when some report since the last flag clear fell below
      a limit against the running peak or the then-current start of day; the reason
      says so exactly when one did since the last reason clear. */
  lemma {:induction false} HaltedExactlyWhen(t: Thresholds, events: seq<Event>)
    ensures Run(t, events).halted <==> BreachSince(t, events, ClearFlag)
    ensures Run(t, events).reason == (if BreachSince(t, events, ClearReason) then DrawdownLimitHit else NoError)
  {
    if events != [] {
      HaltedExactlyWhen(t, events[..|events| - 1]);
      LastBreach(t, events);
      BreachSinceStep(t, events, ClearFlag);
      BreachSinceStep(t, events, ClearReason);
    }
  }

  /** So trading is halted with no reason given exactly when a report fell below a limit
      since the flag was last cleared, but none since the reason was. */
  lemma HaltedWithoutReasonExactlyWhen(t: Thresholds, events: seq<Event>)
    ensures Run(t, events).halted && Run(t, events).reason == NoError <==>
            BreachSince(t, events, ClearFlag) && !BreachSince(t, events, ClearReason)
  {
    HaltedExactlyWhen(t, events);
  }

  /** From 100 on, a loss of just the allowed fraction does not halt; the least more does. */
  lemma LimitItselfIsAllowed(t: Thresholds, equity: real)
    requires 0.0 < t.maxDaily <= t.maxTotal
    ensures Run(t, [Report(100.0), Report(equity)]).halted <==> equity < 100.0 - 100.0 * t.maxDaily
  {
    var one := [Report(100.0)];
    RunAppend(t, [], Report(100.0));
    RunAppend(t, one, Report(equity));
    assert [] + one == one && one + [Report(equity)] == [Report(100.0), Report(equity)];
    var g := Run(t, one);
    assert g == Guard(100.0, 100.0, 100.0, false, NoError);
    ExceedsIsFraction(100.0, equity, t.maxDaily);
    ExceedsIsFraction(100.0, equity, t.maxTotal);
    if equity > 100.0 {
      ExceedsIsFraction(equity, equity, t.maxTotal);
      assert (equity - equity) / equity == 0.0;
    }
  }

  /** Because clearHalt is not atomic, a report between its two stores leaves trading
      halted with no reason given. */
  lemma HaltedWithoutReason()
    ensures
      var g := Run(Thresholds(0.02, 0.05), [Report(100.0), ClearFlag, Report(90.0), ClearReason]);
      g.halted && g.reason == NoError
  {
    var t := Thresholds(0.02, 0.05);
    var one := [Report(100.0)];
    var two := one + [ClearFlag];
    var three := two + [Report(90.0)];
    RunAppend(t, [], Report(100.0));
    RunAppend(t, one, ClearFlag);
    RunAppend(t, two, Report(90.0));
    RunAppend(t, three, ClearReason);
    assert [] + one == one;
    assert three + [ClearReason] == [Report(100.0), ClearFlag, Report(90.0), ClearReason];
  }

  lemma RunAppend(t: Thresholds, events: seq<Event>, e: Event)
    ensures Run(t, events + [e]) == Apply(Run(t, events), t, e)
  {
    assert (events + [e])[..|events|] == events;
  }

  // -------------------------------------------------------------------------
  // The guard object
  // -------------------------------------------------------------------------

  class CircuitBreaker {
    const thresholds: Thresholds
    var peakEquity: real
    var dailyStartEquity: real
    var currentEquity: real
    var dailyPnl: real
    var strategyPnl: map<string, real>
    var halted: bool
    var haltReason: ErrorCode

    ghost function State(): Guard
      reads this
    {
      Guard(peakEquity, dailyStartEquity, currentEquity, halted, haltReason)
    }

    constructor (thresholds: Thresholds)
      ensures this.thresholds == thresholds && State() == FRESH
      ensures dailyPnl == 0.0 && strategyPnl == map[]
    {
      this.thresholds := thresholds;
      peakEquity, dailyStartEquity, currentEquity, dailyPnl := 0.0, 0.0, 0.0, 0.0;
      strategyPnl := map[];
      halted, haltReason := false, NoError;
    }

    method RecordPnl(pnl: real, strategyId: string)
      modifies this`dailyPnl, this`strategyPnl
      ensures dailyPnl == old(dailyPnl) + pnl
      ensures strategyPnl == if strategyId == "" then old(strategyPnl)
                else old(strategyPnl)[strategyId := pnl + (if strategyId in old(strategyPnl) then old(strategyPnl)[strategyId] else 0.0)]
    {
      dailyPnl := dailyPnl + pnl;
      if strategyId != "" {
        var sum := if strategyId in strategyPnl then strategyPnl[strategyId] else 0.0;
        strategyPnl := strategyPnl[strategyId := sum + pnl];
      }
    }

    method ReportEquity(equity: real)
      modifies this
      ensures State() == UpdateEquity(old(State()), thresholds, equity)
      ensures dailyPnl == old(dailyPnl) && strategyPnl == old(strategyPnl)
    {
      currentEquity := equity;
      if currentEquity > peakEquity {
        peakEquity := currentEquity;
      }
      if dailyStartEquity == 0.0 {
        dailyStartEquity := currentEquity;
      }
      if dailyStartEquity > 0.0 {
        var dailyDrawdown := (dailyStartEquity - currentEquity) / dailyStartEquity;
        if dailyDrawdown > thresholds.maxDaily {
          halted := true;
          haltReason := DrawdownLimitHit;
        }
      }
      if peakEquity > 0.0 {
        var peakDrawdown := (peakEquity - currentEquity) / peakEquity;
        if peakDrawdown > thresholds.maxTotal {
          halted := true;
          haltReason := DrawdownLimitHit;
        }
      }
    }

    method ResetDay()
      modifies this
      ensures State() == Apply(old(State()), thresholds, ResetDaily)
      ensures dailyPnl == 0.0 && strategyPnl == map[]
    {
      dailyStartEquity := currentEquity;
      dailyPnl := 0.0;
      strategyPnl := map[];
    }

    method ClearHalt()
      modifies this`halted, this`haltReason
      ensures State() == Apply(Apply(old(State()), thresholds, ClearFlag), thresholds, ClearReason)
    {
      halted := false;
      haltReason := NoError;
    }
  }
}
