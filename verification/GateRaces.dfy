/** The order gate with calls running beside each other and beside halts: the flag test,
    the load of the reason, the token and the reservation are steps of their own. Whether
    a token is granted is the limiter's affair and a choice here. */
module GateRaces {
  import opened Types
  import PM = PositionManager
  import opened RiskManager

  datatype Phase = Called | SawHalt | PastFlag | PastToken | Done(result: EvalResult)

  datatype Call = Call(order: Order, phase: Phase)
  {
    /** Found trading not halted and has not returned. */
    predicate InFlight() { phase.PastFlag? || phase.PastToken? }
  }

  /** `taken` and `made` count the tokens taken and the reservations made so far. */
  datatype State = State(
    halted: bool, reason: ErrorCode, ledger: PM.Ledger, calls: map<nat, Call>, taken: nat, made: nat)

  datatype Event =
    | Begin(tid: nat, order: Order)
    | Step(tid: nat, granted: bool)
    | SetFlag | SetReason | ClearFlag | ClearReason
    | LedgerCall(after: PM.Ledger)

  const INIT := State(false, NoError, PM.EMPTY, map[], 0, 0)

  ghost function StepCall(s: State, lim: PM.Limits, tid: nat, granted: bool): State
    requires tid in s.calls
  {
    var order := s.calls[tid].order;
    var goto := (p: Phase) => s.calls[tid := Call(order, p)];
    match s.calls[tid].phase
    case Called => s.(calls := goto(if s.halted then SawHalt else PastFlag))
    case SawHalt => s.(calls := goto(Done(EvalResult(Rejected, 0.0, s.reason, 0))))
    case PastFlag =>
      if granted then s.(calls := goto(PastToken), taken := s.taken + 1)
      else s.(calls := goto(Done(EvalResult(Rejected, 0.0, RateLimitHit, 0))))
    case PastToken =>
      var (l, r) := PM.Reserve(s.ledger, lim, order.symbol, order.quantity, order.price);
      s.(ledger := l, made := s.made + (if r.approved then 1 else 0),
         calls := goto(Done(EvalResult(r.decision, r.approvedQty, r.code, if r.approved then r.id else 0))))
    case Done(_) => s
  }

  /** A choice that is not enabled leaves the state alone. */
  ghost function Next(s: State, lim: PM.Limits, e: Event): State {
    match e
    case Begin(tid, order) =>
      if tid in s.calls && !s.calls[tid].phase.Done? then s else s.(calls := s.calls[tid := Call(order, Called)])
    case Step(tid, granted) => if tid in s.calls then StepCall(s, lim, tid, granted) else s
    case SetFlag => s.(halted := true)
    case SetReason => s.(reason := DrawdownLimitHit)
    case ClearFlag => s.(halted := false)
    case ClearReason => s.(reason := NoError)
    case LedgerCall(after) => s.(ledger := after)
  }

  ghost function Run(s: State, lim: PM.Limits, events: seq<Event>): State {
    if events == [] then s else Next(Run(s, lim, events[..|events| - 1]), lim, events[|events| - 1])
  }

  ghost function Flying(s: State): set<nat> {
    set tid | tid in s.calls && s.calls[tid].InFlight()
  }

  ghost function AwaitingToken(s: State): set<nat> {
    set tid | tid in s.calls && s.calls[tid].phase.PastFlag?
  }

  // -------------------------------------------------------------------------
  // A call left alone
  // -------------------------------------------------------------------------

  /** Three steps of a call by itself, as evaluateOrder would return: the reason when
      halted, a refusal without a token, and otherwise what the ledger decides, with a
      reservation id unless that is a rejection. */
  lemma LoneCallEvaluates(s: State, lim: PM.Limits, tid: nat, order: Order, granted: bool)
    requires tid !in s.calls
    ensures
      var s1 := Next(s, lim, Begin(tid, order));
      var s2 := Next(s1, lim, Step(tid, granted));
      var s3 := Next(s2, lim, Step(tid, granted));
      var s4 := Next(s3, lim, Step(tid, granted));
      var (l, r) := PM.Reserve(s.ledger, lim, order.symbol, order.quantity, order.price);
      && tid in s4.calls
      && (s.halted ==> s4.calls[tid].phase == Done(EvalResult(Rejected, 0.0, s.reason, 0)) && s4.ledger == s.ledger && s4.taken == s.taken)
      && (!s.halted && !granted ==> s4.calls[tid].phase == Done(EvalResult(Rejected, 0.0, RateLimitHit, 0)) && s4.ledger == s.ledger)
      && (!s.halted && granted ==>
            && s4.ledger == l && s4.taken == s.taken + 1 && s4.made == s.made + (if r.approved then 1 else 0)
            && s4.calls[tid].phase ==
               Done(EvalResult(r.decision, r.approvedQty, r.code, if r.decision == Rejected then 0 else s.ledger.nextReservation)))
  {
    hide PM.Reserve, PM.Decide;
    ReserveShape(s.ledger, lim, order);
  }

  // -------------------------------------------------------------------------
  // After a halt
  // -------------------------------------------------------------------------

  /** While halted, a call that is in flight can only come to rest, and each reservation
      and each token uses up one that was. */
  lemma HaltedStep(s: State, lim: PM.Limits, e: Event)
    requires s.halted && !e.ClearFlag?
    ensures
      var s' := Next(s, lim, e);
      && s'.halted && Flying(s') <= Flying(s) && AwaitingToken(s') <= AwaitingToken(s)
      && s'.made + |Flying(s')| <= s.made + |Flying(s)|
      && s'.taken + |AwaitingToken(s')| <= s.taken + |AwaitingToken(s)|
  {
    hide Flying, AwaitingToken, StepCall;
    if e.Step? && e.tid in s.calls {
      HaltedCall(s, lim, e.tid, e.granted);
      SetsAfter(s, Next(s, lim, e), e.tid, Next(s, lim, e).calls[e.tid]);
    } else if e.Begin? && !(e.tid in s.calls && !s.calls[e.tid].phase.Done?) {
      SetsAfter(s, Next(s, lim, e), e.tid, Call(e.order, Called));
      NotFlying(s, e.tid);
    } else {
      SameCalls(s, Next(s, lim, e));
    }
  }

  /** What a step of a call does while trading is halted. */
  lemma HaltedCall(s: State, lim: PM.Limits, tid: nat, granted: bool)
    requires tid in s.calls && s.halted
    ensures
      var s' := StepCall(s, lim, tid, granted);
      var was, now := s.calls[tid], if tid in s'.calls then s'.calls[tid] else s.calls[tid];
      && s'.calls == s.calls[tid := now] && s'.halted
      && (now.InFlight() ==> was.InFlight()) && !now.phase.PastFlag?
      && (s'.made == s.made || (s'.made == s.made + 1 && was.InFlight() && !now.InFlight()))
      && (s'.taken == s.taken || (s'.taken == s.taken + 1 && was.phase.PastFlag?))
      && (tid in Flying(s) <==> was.InFlight()) && (tid in AwaitingToken(s) <==> was.phase.PastFlag?)
  {
    hide PM.Reserve;
  }

  lemma SetsAfter(s: State, s': State, tid: nat, call: Call)
    requires s'.calls == s.calls[tid := call]
    ensures Flying(s') == if call.InFlight() then Flying(s) + {tid} else Flying(s) - {tid}
    ensures AwaitingToken(s') == if call.phase.PastFlag? then AwaitingToken(s) + {tid} else AwaitingToken(s) - {tid}
  {
  }

  lemma NotFlying(s: State, tid: nat)
    requires tid !in s.calls || s.calls[tid].phase.Done?
    ensures tid !in Flying(s) && tid !in AwaitingToken(s)
  {
  }

  lemma SameCalls(s: State, s': State)
    requires s'.calls == s.calls
    ensures Flying(s') == Flying(s) && AwaitingToken(s') == AwaitingToken(s)
  {
  }

  /** Once trading is halted, however the calls interleave and however many more begin:
      no more reservations are made than calls were in flight at the halt, no more tokens
      are taken than calls had yet to take theirs, and only those calls are ever in flight. */
  lemma {:induction false} HaltLimitsReservations(s: State, lim: PM.Limits, events: seq<Event>)
    requires s.halted && forall e <- events :: !e.ClearFlag?
    ensures
      var s' := Run(s, lim, events);
      && s'.halted && Flying(s') <= Flying(s)
      && s'.made + |Flying(s')| <= s.made + |Flying(s)|
      && s'.taken + |AwaitingToken(s')| <= s.taken + |AwaitingToken(s)|
  {
    hide Next, Flying, AwaitingToken;
    if events != [] {
      var before := events[..|events| - 1];
      HaltLimitsReservations(s, lim, before);
      HaltedStep(Run(s, lim, before), lim, events[|events| - 1]);
    }
  }

  /** Event i is this call's flag test, and it found trading not halted. */
  ghost predicate ReadsClearFlag(s: State, lim: PM.Limits, events: seq<Event>, tid: nat, i: nat)
    requires i < |events|
  {
    var t := Run(s, lim, events[..i]);
    && events[i].Step? && events[i].tid == tid
    && tid in t.calls && t.calls[tid].phase.Called? && !t.halted
  }

  /** A call in flight tested the flag at some moment when it was clear, and has been in
      flight ever since. */
  lemma {:induction false} FlightBeganUnhalted(lim: PM.Limits, events: seq<Event>, tid: nat) returns (i: nat)
    requires tid in Flying(Run(INIT, lim, events))
    ensures i < |events| && ReadsClearFlag(INIT, lim, events, tid, i)
    ensures forall j | i < j <= |events| :: tid in Flying(Run(INIT, lim, events[..j]))
  {
    var n := |events| - 1;
    var before := events[..n];
    assert events[..|events|] == events;
    if tid in Flying(Run(INIT, lim, before)) {
      i := FlightBeganUnhalted(lim, before, tid);
      assert before[..i] == events[..i];
      forall j | i < j <= |events|
        ensures tid in Flying(Run(INIT, lim, events[..j]))
      {
        if j <= n {
          assert before[..j] == events[..j];
        }
      }
    } else {
      i := n;
      FlightBegins(Run(INIT, lim, before), lim, events[n], tid);
    }
  }

  lemma FlightBegins(s: State, lim: PM.Limits, e: Event, tid: nat)
    requires tid !in Flying(s) && tid in Flying(Next(s, lim, e))
    ensures e.Step? && e.tid == tid && tid in s.calls && s.calls[tid].phase.Called? && !s.halted
  {
    hide PM.Reserve;
  }

  lemma MadeByFlight(s: State, lim: PM.Limits, e: Event)
    requires Next(s, lim, e).made > s.made
    ensures e.Step? && e.tid in Flying(s)
  {
    hide PM.Reserve;
  }

  /** In every interleaving: a reservation made while trading has been halted since h
      belongs to a call that tested the flag before h. */
  lemma ReservedAfterHaltReadBefore(lim: PM.Limits, events: seq<Event>, h: nat, n: nat) returns (i: nat)
    requires h <= n < |events|
    requires forall j | h <= j <= n :: Run(INIT, lim, events[..j]).halted
    requires Run(INIT, lim, events[..n + 1]).made > Run(INIT, lim, events[..n]).made
    ensures i < h && events[n].Step? && ReadsClearFlag(INIT, lim, events, events[n].tid, i)
    ensures forall j | i < j <= n :: events[n].tid in Flying(Run(INIT, lim, events[..j]))
  {
    hide Next, Flying;
    assert events[..n + 1][..n] == events[..n];
    MadeByFlight(Run(INIT, lim, events[..n]), lim, events[n]);
    i := FlightBeganUnhalted(lim, events[..n], events[n].tid);
    assert events[..n][..i] == events[..i];
    forall j | i < j <= n
      ensures events[n].tid in Flying(Run(INIT, lim, events[..j]))
    {
      assert events[..n][..j] == events[..j];
    }
  }

  /** The reason is loaded after the flag and stored after it, so a rejection can come
      without one: the call runs between the two stores of the report. */
  lemma RejectedWithoutReason(lim: PM.Limits, order: Order)
    ensures
      var s := Run(INIT, lim, [Begin(0, order), SetFlag, Step(0, true), Step(0, true), SetReason]);
      0 in s.calls && s.calls[0].phase == Done(EvalResult(Rejected, 0.0, NoError, 0))
  {
    var e := [Begin(0, order), SetFlag, Step(0, true), Step(0, true), SetReason];
    var s2 := State(true, NoError, PM.EMPTY, map[0 := Call(order, Called)], 0, 0);
    assert e[..0] == [] && e[..1][..0] == e[..0] && e[..2][..1] == e[..1] && e[..3][..2] == e[..2];
    assert e[..4][..3] == e[..3] && e[..5] == e && e[..5][..4] == e[..4];
    assert Run(INIT, lim, e[..1]) == s2.(halted := false);
    assert Run(INIT, lim, e[..2]) == s2;
    assert Run(INIT, lim, e[..3]) == s2.(calls := map[0 := Call(order, SawHalt)]);
    assert Run(INIT, lim, e[..4]) == s2.(calls := map[0 := Call(order, Done(EvalResult(Rejected, 0.0, NoError, 0)))]);
  }
}
