/** The circuit breaker store by store: a report holds the lock while it stores the halt
    flag and then the reason, once for each check it fails; clearHalt takes no lock and
    clears the two in stores of its own, which can land between them. */
module HaltRaces {
  import opened Types
  import DG = DrawdownGuard

  /** `left` counts the stores that the report holding the lock has still to make. */
  datatype Race = Race(guard: DG.Guard, left: nat)

  datatype Event = Report(equity: real) | Store | ResetDaily | ClearFlag | ClearReason

  const START := Race(DG.FRESH, 0)

  /** How many of its two checks a report fails. */
  function Failed(g: DG.Guard, t: DG.Thresholds): nat {
    (if DG.Exceeds(g.dailyStart, g.current, t.maxDaily) then 1 else 0)
    + (if DG.Exceeds(g.peak, g.current, t.maxTotal) then 1 else 0)
  }

  function Received(g: DG.Guard, equity: real): DG.Guard {
    g.(peak := MaxR(g.peak, equity), current := equity,
       dailyStart := if g.dailyStart == 0.0 then equity else g.dailyStart)
  }

  /** Calls that need the lock have to wait while a report is under way. */
  function Next(r: Race, t: DG.Thresholds, e: Event): Race {
    match e
    case Report(equity) =>
      if r.left > 0 then r
      else var g := Received(r.guard, equity); Race(g, 2 * Failed(g, t))
    case ResetDaily => if r.left > 0 then r else r.(guard := r.guard.(dailyStart := r.guard.current))
    case Store =>
      if r.left == 0 then r
      else if r.left % 2 == 0 then Race(r.guard.(halted := true), r.left - 1)
      else Race(r.guard.(reason := DrawdownLimitHit), r.left - 1)
    case ClearFlag => r.(guard := r.guard.(halted := false))
    case ClearReason => r.(guard := r.guard.(reason := NoError))
  }

  function Run(t: DG.Thresholds, events: seq<Event>): Race {
    if events == [] then START else Next(Run(t, events[..|events| - 1]), t, events[|events| - 1])
  }

  /** The calls that took effect, in order, as atomic events. */
  function Calls(t: DG.Thresholds, events: seq<Event>): seq<DG.Event> {
    if events == [] then []
    else
      var n := |events| - 1;
      var calls, free := Calls(t, events[..n]), Run(t, events[..n]).left == 0;
      match events[n]
      case Report(equity) => if free then calls + [DG.Report(equity)] else calls
      case ResetDaily => if free then calls + [DG.ResetDaily] else calls
      case Store => calls
      case ClearFlag => calls + [DG.ClearFlag]
      case ClearReason => calls + [DG.ClearReason]
  }

  predicate IsClear(e: Event) { e.ClearFlag? || e.ClearReason? }

  // -------------------------------------------------------------------------
  // In every interleaving
  // -------------------------------------------------------------------------

  /** Peak, start of day and current equity are those of the atomic guard; and a report
      with stores left to make is one that fails a check. */
  lemma {:induction false} LockedFieldsAreAtomic(t: DG.Thresholds, events: seq<Event>)
    ensures
      var r, g := Run(t, events), DG.Run(t, Calls(t, events));
      && r.guard.peak == g.peak && r.guard.dailyStart == g.dailyStart && r.guard.current == g.current
      && (r.left > 0 ==> Failed(r.guard, t) > 0 && r.left <= 2 * Failed(r.guard, t))
  {
    if events != [] {
      var n := |events| - 1;
      LockedFieldsAreAtomic(t, events[..n]);
      CallsStep(t, events);
    }
  }

  /** What one event adds to the atomic run. */
  lemma CallsStep(t: DG.Thresholds, events: seq<Event>)
    requires events != []
    ensures
      var n := |events| - 1;
      var g, free := DG.Run(t, Calls(t, events[..n])), Run(t, events[..n]).left == 0;
      DG.Run(t, Calls(t, events)) ==
        match events[n]
        case Report(equity) => if free then DG.UpdateEquity(g, t, equity) else g
        case ResetDaily => if free then g.(dailyStart := g.current) else g
        case Store => g
        case ClearFlag => g.(halted := false)
        case ClearReason => g.(reason := NoError)
  {
    var calls := Calls(t, events[..|events| - 1]);
    match events[|events| - 1]
    case Report(equity) => DG.RunAppend(t, calls, DG.Report(equity));
    case ResetDaily => DG.RunAppend(t, calls, DG.ResetDaily);
    case ClearFlag => DG.RunAppend(t, calls, DG.ClearFlag);
    case ClearReason => DG.RunAppend(t, calls, DG.ClearReason);
    case Store =>
  }

  /** Event i stores the flag (even number of stores left) or the reason (odd). */
  predicate Stores(t: DG.Thresholds, events: seq<Event>, i: nat, flag: bool)
    requires i < |events|
  {
    var left := Run(t, events[..i]).left;
    events[i].Store? && left > 0 && (left % 2 == 0 <==> flag)
  }

  /** Some such store has not been followed by the clearing one. */
  ghost predicate StoredSince(t: DG.Thresholds, events: seq<Event>, flag: bool, clear: Event) {
    exists i: nat :: i < |events| && Stores(t, events, i, flag) && forall j | i < j < |events| :: events[j] != clear
  }

  lemma StoredSinceStep(t: DG.Thresholds, events: seq<Event>, flag: bool, clear: Event)
    requires events != [] && IsClear(clear)
    ensures
      var n := |events| - 1;
      StoredSince(t, events, flag, clear) <==>
        Stores(t, events, n, flag) || (events[n] != clear && StoredSince(t, events[..n], flag, clear))
  {
    var n := |events| - 1;
    forall i: nat | i < n
      ensures Stores(t, events, i, flag) <==> Stores(t, events[..n], i, flag)
    {
      assert events[..n][..i] == events[..i];
    }
    if events[n] != clear && StoredSince(t, events[..n], flag, clear) {
      var i: nat :| i < n && Stores(t, events[..n], i, flag) && forall j | i < j < n :: events[..n][j] != clear;
      assert forall j | i < j < |events| :: events[j] != clear;
    }
    if StoredSince(t, events, flag, clear) {
      var i: nat :| i < |events| && Stores(t, events, i, flag) && forall j | i < j < |events| :: events[j] != clear;
      if i < n {
        assert forall j | i < j < n :: events[..n][j] != clear;
        assert events[n] != clear;
      }
    }
  }

  /** Flag and reason each stand exactly when a failing report has stored them since they
      were last cleared; by LockedFieldsAreAtomic only failing reports store. */
  lemma {:induction false} EachStandsExactlyWhen(t: DG.Thresholds, events: seq<Event>)
    ensures Run(t, events).guard.halted <==> StoredSince(t, events, true, ClearFlag)
    ensures Run(t, events).guard.reason == if StoredSince(t, events, false, ClearReason) then DrawdownLimitHit else NoError
  {
    if events != [] {
      EachStandsExactlyWhen(t, events[..|events| - 1]);
      StoredSinceStep(t, events, true, ClearFlag);
      StoredSinceStep(t, events, false, ClearReason);
    }
  }

  // -------------------------------------------------------------------------
  // Where a clearHalt does harm
  // -------------------------------------------------------------------------

  /** A clearHalt has made its first store and not yet its second. */
  function Clearing(events: seq<Event>): bool {
    if events == [] then false
    else
      match events[|events| - 1]
      case ClearFlag => true
      case ClearReason => false
      case _ => Clearing(events[..|events| - 1])
  }

  /** Calls of clearHalt follow one another, each with its stores in order. */
  predicate ClearsInTurn(events: seq<Event>) {
    events == [] ||
    var before, e := events[..|events| - 1], events[|events| - 1];
    ClearsInTurn(before) && (e.ClearFlag? ==> !Clearing(before)) && (e.ClearReason? ==> Clearing(before))
  }

  /** How many stores the report under way had left when the last clearHalt finished. */
  function LeftAtClear(t: DG.Thresholds, events: seq<Event>): nat {
    if events == [] then 0
    else if events[|events| - 1].ClearReason? then Run(t, events[..|events| - 1]).left
    else LeftAtClear(t, events[..|events| - 1])
  }

  lemma {:induction false} ClearedAndNotHalted(t: DG.Thresholds, events: seq<Event>)
    requires ClearsInTurn(events)
    ensures
      var r, atClear := Run(t, events), LeftAtClear(t, events);
      !Clearing(events) && !r.guard.halted ==>
        && (r.guard.reason == if atClear % 2 == 1 && r.left % 2 == 0 then DrawdownLimitHit else NoError)
        && (r.left % 2 == 1 ==> r.left == atClear)
        && (atClear % 2 == 1 && r.left % 2 == 0 ==> atClear == 1 || r.left == atClear - 1)
  {
    if events != [] {
      ClearedAndNotHalted(t, events[..|events| - 1]);
    }
  }

  /** Between reports and clearHalts, when trading is not halted: a reason stands if and
      only if the last clearHalt finished just before the last store of a failing report. */
  lemma ReasonWithoutHaltExactlyWhen(t: DG.Thresholds, events: seq<Event>)
    requires ClearsInTurn(events) && !Clearing(events) && Run(t, events).left == 0
    requires !Run(t, events).guard.halted
    ensures Run(t, events).guard.reason == DrawdownLimitHit <==> LeftAtClear(t, events) == 1
  {
    ClearedAndNotHalted(t, events);
  }

  // -------------------------------------------------------------------------
  // When reports may be taken as atomic
  // -------------------------------------------------------------------------

  /** No clearing store lands while a report is under way. */
  ghost predicate ClearsApart(t: DG.Thresholds, events: seq<Event>) {
    forall i | 0 <= i < |events| && IsClear(events[i]) :: Run(t, events[..i]).left == 0
  }

  /** The guard once the report under way has made its stores. */
  function Settled(r: Race): DG.Guard {
    if r.left == 0 then r.guard else r.guard.(halted := true, reason := DrawdownLimitHit)
  }

  /** Then the guard is the atomic one, up to the stores still to come, so that between
      reports halt flag and reason are those DrawdownGuard.HaltedExactlyWhen describes. */
  lemma {:induction false} AtomicWhenClearsApart(t: DG.Thresholds, events: seq<Event>)
    requires ClearsApart(t, events)
    ensures Settled(Run(t, events)) == DG.Run(t, Calls(t, events))
    ensures Run(t, events).left % 2 == 1 ==> Run(t, events).guard.halted
  {
    if events != [] {
      var n := |events| - 1;
      assert ClearsApart(t, events[..n]) by {
        forall i | 0 <= i < n && IsClear(events[..n][i])
          ensures Run(t, events[..n][..i]).left == 0
        {
          assert events[..n][..i] == events[..i] && events[..n][i] == events[i];
        }
      }
      AtomicWhenClearsApart(t, events[..n]);
      CallsStep(t, events);
    }
  }

  /** Otherwise it need not be: clearHalt lands before the last store of a report that
      fails both checks, and a reason stands although trading is not halted. */
  lemma ReasonWithoutHalt()
    ensures
      var r := Run(DG.Thresholds(0.02, 0.05),
                   [Report(100.0), Report(90.0), Store, Store, Store, ClearFlag, ClearReason, Store]);
      r.left == 0 && !r.guard.halted && r.guard.reason == DrawdownLimitHit
  {
    var t := DG.Thresholds(0.02, 0.05);
    var all := [Report(100.0), Report(90.0), Store, Store, Store, ClearFlag, ClearReason, Store];
    var g := DG.Guard(100.0, 100.0, 90.0, false, NoError);
    assert Run(t, all[..0]) == START;
    RunStep(t, all, 0);
    assert Run(t, all[..1]) == Race(DG.Guard(100.0, 100.0, 100.0, false, NoError), 0);
    RunStep(t, all, 1);
    assert Run(t, all[..2]) == Race(g, 4);
    RunStep(t, all, 2);
    RunStep(t, all, 3);
    RunStep(t, all, 4);
    assert Run(t, all[..5]) == Race(g.(halted := true, reason := DrawdownLimitHit), 1);
    RunStep(t, all, 5);
    RunStep(t, all, 6);
    RunStep(t, all, 7);
    assert all[..8] == all;
  }

  lemma RunStep(t: DG.Thresholds, events: seq<Event>, i: nat)
    requires i < |events|
    ensures Run(t, events[..i + 1]) == Next(Run(t, events[..i]), t, events[i])
  {
    assert events[..i + 1][..i] == events[..i];
  }
}
