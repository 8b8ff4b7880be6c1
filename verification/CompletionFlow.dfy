/** Orders from reservation to fill: the completion handler consumes the filled order's
    reservation by id and then opens the position, which erases a further reservation of
    the symbol if there is one. */
module CompletionFlow {
  import opened Types
  import opened PositionManager
  import opened ReservationLedger

  // -------------------------------------------------------------------------
  // One completion
  // -------------------------------------------------------------------------

  /** No reservation but `id` is for this symbol. */
  predicate OnlyOneOf(pending: map<nat, Pending>, id: nat, symbol: string) {
    forall other <- pending :: other != id ==> pending[other].symbol != symbol
  }

  /** An accepted completion leaves the other orders' reservations alone exactly when
      none of them is for the symbol that was filled. */
  lemma CompletionKeepsOthersExactlyWhen(l: Ledger, lim: Limits, id: nat, f: Fill, released: Option<nat>)
    requires ReleaseChoice(Drop(l, id).pending, f.symbol, released)
    ensures
      var (l', result) := Open(Drop(l, id), lim, f, released);
      result.Ok? ==> (l'.pending == Drop(l, id).pending <==> OnlyOneOf(l.pending, id, f.symbol))
  {
    hide OpenRefusal;
    var pending := Drop(l, id).pending;
    if OpenRefusal(Drop(l, id), lim, f).Some? {
      // refused: nothing to show
    } else if released.Some? {
      var other := released.value;
      assert other in pending && other !in Open(Drop(l, id), lim, f, released).0.pending;
      assert other != id && l.pending[other].symbol == f.symbol;
    } else {
      assert Open(Drop(l, id), lim, f, released).0.pending == pending;
      forall other <- l.pending | other != id ensures l.pending[other].symbol != f.symbol {
        assert other in pending;
      }
    }
  }

  // -------------------------------------------------------------------------
  // Whole runs
  // -------------------------------------------------------------------------

  /** `live` holds what each order that is neither filled nor abandoned was granted. */
  datatype Flow = Flow(ledger: Ledger, live: map<nat, Pending>)

  datatype Event =
    | Place(symbol: string, qty: real, price: real)
    | Abandon(id: nat)
    | Complete(id: nat, fill: Fill, released: Option<nat>)
    | CloseAll(position: string, qty: real, exit: real)

  const START := Flow(EMPTY, map[])

  ghost function Next(s: Flow, lim: Limits, e: Event): Flow {
    match e
    case Place(symbol, qty, price) =>
      var (l, r) := Reserve(s.ledger, lim, symbol, qty, price);
      Flow(l, if r.approved then s.live[r.id := Pending(symbol, r.reservedNotional, r.approvedQty)] else s.live)
    case Abandon(id) => Flow(Drop(s.ledger, id), s.live - {id})
    case Complete(id, fill, released) => Flow(Open(Drop(s.ledger, id), lim, fill, released).0, s.live - {id})
    case CloseAll(position, qty, exit) => Flow(Close(s.ledger, position, qty, exit).0, s.live)
  }

  ghost predicate Accepted(s: Flow, lim: Limits, e: Event) {
    e.Complete? && OpenRefusal(Drop(s.ledger, e.id), lim, e.fill).None?
  }

  /** The reservation that an accepted completion erases is one the scan can meet. */
  ghost predicate Chosen(s: Flow, lim: Limits, e: Event) {
    Accepted(s, lim, e) ==> ReleaseChoice(Drop(s.ledger, e.id).pending, e.fill.symbol, e.released)
  }

  /** The check to make before a completion: no other live order is for the symbol. */
  ghost predicate Guarded(s: Flow, lim: Limits, e: Event) {
    Accepted(s, lim, e) ==> OnlyOneOf(s.live, e.id, e.fill.symbol)
  }

  /** Every live order still has its reservation, and nothing else is reserved. */
  predicate InStep(s: Flow) {
    s.ledger.pending == s.live
  }

  /** Positions and live orders together respect the three limits. */
  ghost predicate LiveWithinLimits(s: Flow, lim: Limits) {
    WithinLimits(s.ledger.(pending := s.live), lim)
  }

  ghost function Run(s: Flow, lim: Limits, events: seq<Event>): Flow
    decreases |events|
  {
    if events == [] then s else Run(Next(s, lim, events[0]), lim, events[1..])
  }

  ghost predicate ChosenRun(s: Flow, lim: Limits, events: seq<Event>)
    decreases |events|
  {
    events == [] || (Chosen(s, lim, events[0]) && ChosenRun(Next(s, lim, events[0]), lim, events[1..]))
  }

  ghost predicate GuardedRun(s: Flow, lim: Limits, events: seq<Event>)
    decreases |events|
  {
    events == [] || (Guarded(s, lim, events[0]) && GuardedRun(Next(s, lim, events[0]), lim, events[1..]))
  }

  ghost predicate InStepThroughout(s: Flow, lim: Limits, events: seq<Event>)
    decreases |events|
  {
    InStep(s) && (events == [] || InStepThroughout(Next(s, lim, events[0]), lim, events[1..]))
  }

  lemma StepStaysExactlyWhen(s: Flow, lim: Limits, e: Event)
    requires InStep(s) && Chosen(s, lim, e)
    ensures InStep(Next(s, lim, e)) <==> Guarded(s, lim, e)
  {
    hide OpenRefusal, Decide;
    if e.Complete? && Accepted(s, lim, e) {
      CompletionKeepsOthersExactlyWhen(s.ledger, lim, e.id, e.fill, e.released);
    }
  }

  /** Over every run, with fills and closes of any size: each live order has its own
      reservation at all times if and only if at every accepted completion no other live
      order is for the filled symbol. */
  lemma {:induction false} ReservationsKeptExactlyWhen(s: Flow, lim: Limits, events: seq<Event>)
    requires InStep(s) && ChosenRun(s, lim, events)
    ensures InStepThroughout(s, lim, events) <==> GuardedRun(s, lim, events)
    decreases |events|
  {
    hide Next, Chosen, Guarded, InStep;
    if events != [] {
      StepStaysExactlyWhen(s, lim, events[0]);
      if InStep(Next(s, lim, events[0])) {
        ReservationsKeptExactlyWhen(Next(s, lim, events[0]), lim, events[1..]);
      }
    }
  }

  // -------------------------------------------------------------------------
  // Limits on positions and live orders
  // -------------------------------------------------------------------------

  /** Sizes and prices are not negative and closes are full. */
  ghost predicate Plain(s: Flow, e: Event) {
    match e
    case Place(_, qty, price) => qty >= 0.0 && price >= 0.0
    case Abandon(_) => true
    case CloseAll(position, qty, _) => position in s.ledger.positions ==> qty >= s.ledger.positions[position].quantity
    case Complete(_, fill, _) => Opened(fill).notional >= 0.0
  }

  /** The other check to make before a completion: what was really paid fits beside all
      other positions and live orders. An order without a reservation also needs a place. */
  ghost predicate Affordable(s: Flow, lim: Limits, e: Event) {
    Accepted(s, lim, e) ==>
      var l, paid := Drop(s.ledger, e.id), Opened(e.fill).notional;
      && Committed(l) + paid <= lim.maxTotal
      && CommittedOf(l, e.fill.symbol) + paid <= lim.maxSymbol
      && (e.id !in s.live ==> OpenCount(l) < lim.maxOpen)
  }

  ghost predicate PlainRun(s: Flow, lim: Limits, events: seq<Event>)
    decreases |events|
  {
    events == [] || (Plain(s, events[0]) && PlainRun(Next(s, lim, events[0]), lim, events[1..]))
  }

  ghost predicate AffordableRun(s: Flow, lim: Limits, events: seq<Event>)
    decreases |events|
  {
    events == [] || (Affordable(s, lim, events[0]) && AffordableRun(Next(s, lim, events[0]), lim, events[1..]))
  }

  ghost predicate LiveWithinThroughout(s: Flow, lim: Limits, events: seq<Event>)
    decreases |events|
  {
    LiveWithinLimits(s, lim) && (events == [] || LiveWithinThroughout(Next(s, lim, events[0]), lim, events[1..]))
  }

  /** In step with the ledger, the live totals are the ledger's own. */
  lemma LiveIsPending(s: Flow, lim: Limits)
    requires InStep(s)
    ensures LiveWithinLimits(s, lim) <==> WithinLimits(s.ledger, lim)
  {
    assert s.ledger.(pending := s.live) == s.ledger;
  }

  lemma CompletionWithinExactlyWhen(s: Flow, lim: Limits, e: Event)
    requires InStep(s) && Admitted(s.ledger, lim)
    requires e.Complete? && Plain(s, e) && Chosen(s, lim, e) && Guarded(s, lim, e)
    ensures WithinLimits(Next(s, lim, e).ledger, lim) <==> Affordable(s, lim, e)
    ensures Affordable(s, lim, e) ==> Admitted(Next(s, lim, e).ledger, lim)
  {
    hide Committed, CommittedOf, OpenCount, OpenRefusal, WithinLimits, IdsIssued;
    var l := Drop(s.ledger, e.id);
    DropKeepsAdmitted(s.ledger, lim, e.id);
    if Accepted(s, lim, e) {
      CompletionKeepsOthersExactlyWhen(s.ledger, lim, e.id, e.fill, e.released);
      assert e.released.None?;
      RoomOfOwn(s.ledger, lim, e.id);
      StepWithinExactlyWhen(l, lim, DoOpen(e.fill, None));
    }
  }

  /** Dropping a reservation leaves room for a position in its place. */
  lemma RoomOfOwn(l: Ledger, lim: Limits, id: nat)
    requires WithinLimits(l, lim)
    ensures id in l.pending ==> OpenCount(Drop(l, id)) < lim.maxOpen
  {
    if id in l.pending {
      DropTotals(l, id);
    }
  }

  lemma EventWithinExactlyWhen(s: Flow, lim: Limits, e: Event)
    requires InStep(s) && Admitted(s.ledger, lim) && Plain(s, e) && Chosen(s, lim, e) && Guarded(s, lim, e)
    ensures WithinLimits(Next(s, lim, e).ledger, lim) <==> Affordable(s, lim, e)
    ensures Affordable(s, lim, e) ==> Admitted(Next(s, lim, e).ledger, lim)
  {
    hide Admitted, WithinLimits, Guarded, Chosen, Reserve, Open, Close;
    match e
    case Place(symbol, qty, price) =>
      ReserveKeepsAdmitted(s.ledger, lim, symbol, qty, price);
      AdmittedIsWithin(Next(s, lim, e).ledger, lim);
    case Abandon(id) =>
      DropKeepsAdmitted(s.ledger, lim, id);
      AdmittedIsWithin(Next(s, lim, e).ledger, lim);
    case CloseAll(position, qty, exit) =>
      CloseKeepsAdmitted(s.ledger, lim, position, qty, exit);
      AdmittedIsWithin(Next(s, lim, e).ledger, lim);
    case Complete(_, _, _) => CompletionWithinExactlyWhen(s, lim, e);
  }

  /** Over every guarded run: positions and live orders together stay within every limit at
      all times if and only if at each accepted completion what was paid fits beside all
      other business. */
  lemma {:induction false} LiveLimitsHoldExactlyWhen(s: Flow, lim: Limits, events: seq<Event>)
    requires InStep(s) && Admitted(s.ledger, lim)
    requires ChosenRun(s, lim, events) && PlainRun(s, lim, events) && GuardedRun(s, lim, events)
    ensures LiveWithinThroughout(s, lim, events) <==> AffordableRun(s, lim, events)
    decreases |events|
  {
    hide Next, Plain, Chosen, Guarded, Affordable, InStep, Admitted, WithinLimits, LiveWithinLimits;
    LiveIsPending(s, lim);
    AdmittedIsWithin(s.ledger, lim);
    if events != [] {
      var s' := Next(s, lim, events[0]);
      StepStaysExactlyWhen(s, lim, events[0]);
      EventWithinExactlyWhen(s, lim, events[0]);
      LiveIsPending(s', lim);
      if Affordable(s, lim, events[0]) {
        LiveLimitsHoldExactlyWhen(s', lim, events[1..]);
      } else {
        assert !LiveWithinThroughout(s', lim, events[1..]);
      }
    }
  }

  /** A completion of a live order at no more than it was granted. */
  ghost predicate AsGranted(s: Flow, lim: Limits, e: Event) {
    Accepted(s, lim, e) ==>
      && e.id in s.live && e.fill.symbol == s.live[e.id].symbol
      && Opened(e.fill).notional <= s.live[e.id].notional
  }

  ghost predicate AsGrantedRun(s: Flow, lim: Limits, events: seq<Event>)
    decreases |events|
  {
    events == [] || (AsGranted(s, lim, events[0]) && AsGrantedRun(Next(s, lim, events[0]), lim, events[1..]))
  }

  lemma GrantedIsAffordable(s: Flow, lim: Limits, e: Event)
    requires InStep(s) && Admitted(s.ledger, lim) && AsGranted(s, lim, e)
    ensures Affordable(s, lim, e)
  {
    hide Committed, CommittedOf, OpenCount, OpenRefusal;
    if Accepted(s, lim, e) {
      DropTotals(s.ledger, e.id);
    }
  }

  lemma {:induction false} GrantedRunIsAffordable(s: Flow, lim: Limits, events: seq<Event>)
    requires InStep(s) && Admitted(s.ledger, lim)
    requires ChosenRun(s, lim, events) && PlainRun(s, lim, events) && GuardedRun(s, lim, events)
    requires AsGrantedRun(s, lim, events)
    ensures AffordableRun(s, lim, events)
    decreases |events|
  {
    hide Next, Plain, Chosen, Guarded, Affordable, AsGranted, InStep, Admitted;
    if events != [] {
      GrantedIsAffordable(s, lim, events[0]);
      StepStaysExactlyWhen(s, lim, events[0]);
      EventWithinExactlyWhen(s, lim, events[0]);
      GrantedRunIsAffordable(Next(s, lim, events[0]), lim, events[1..]);
    }
  }

  /** In particular from the empty ledger, when no fill costs more than it was granted. */
  lemma LiveOrdersWithinLimits(lim: Limits, events: seq<Event>)
    requires lim.maxTotal >= 0.0 && lim.maxSymbol >= 0.0 && lim.maxOpen >= 0
    requires ChosenRun(START, lim, events) && PlainRun(START, lim, events) && GuardedRun(START, lim, events)
    requires AsGrantedRun(START, lim, events)
    ensures LiveWithinThroughout(START, lim, events)
  {
    EmptyIsAdmitted(lim);
    GrantedRunIsAffordable(START, lim, events);
    LiveLimitsHoldExactlyWhen(START, lim, events);
  }

  // -------------------------------------------------------------------------
  // Two runs beyond the limits
  // -------------------------------------------------------------------------

  const THOUSAND := Limits(1000.0, 5, 1000.0)

  function SpotBuy(qty: real, price: real): Fill {
    Fill("X", Buy, qty, price, "s", Spot, 1.0, 1.0, 0.0)
  }

  /** All business is in symbols X and Y, and this much of it. */
  ghost predicate Books(l: Ledger, x: real, y: real, count: int) {
    && IdsIssued(l) && OpenCount(l) == count
    && Committed(l) == x + y && CommittedOf(l, "X") == x && CommittedOf(l, "Y") == y
  }

  predicate XorY(symbol: string) { symbol == "X" || symbol == "Y" }

  function With(l: Ledger, p: Pending): Ledger {
    l.(nextReservation := l.nextReservation + 1, pending := l.pending[l.nextReservation := p])
  }

  /** A ledger with one more reservation under the next id. */
  lemma NewEntry(l: Ledger, x: real, y: real, count: int, p: Pending)
    requires Books(l, x, y, count) && XorY(p.symbol)
    ensures Books(With(l, p), if p.symbol == "X" then x + p.notional else x,
                  if p.symbol == "Y" then y + p.notional else y, count + 1)
  {
    hide Committed, CommittedOf, OpenCount, Issued;
    AddPendingTotals(l, l.nextReservation, p);
    RenumberKeeps(l.(pending := l.pending[l.nextReservation := p]), With(l, p));
  }

  lemma DecideInFull(id: nat, total: real, ofSymbol: real, count: int, qty: real)
    requires count < 5 && total + qty * 100.0 <= 1000.0 && ofSymbol + qty * 100.0 <= 1000.0
    ensures Decide(id, THOUSAND, total, ofSymbol, count, qty, 100.0) ==
            Reservation(id, true, qty, qty * 100.0, Approved, NoError, Fits)
  {
  }

  /** Placing an order that fits. */
  lemma Placed(s: Flow, x: real, y: real, count: int, symbol: string, qty: real)
    requires Books(s.ledger, x, y, count) && XorY(symbol) && count < 5
    requires x >= 0.0 && y >= 0.0 && x + y + qty * 100.0 <= 1000.0
    ensures
      var id, p := s.ledger.nextReservation, Pending(symbol, qty * 100.0, qty);
      && Next(s, THOUSAND, Place(symbol, qty, 100.0)) == Flow(With(s.ledger, p), s.live[id := p])
      && Books(With(s.ledger, p), if symbol == "X" then x + qty * 100.0 else x,
               if symbol == "Y" then y + qty * 100.0 else y, count + 1)
  {
    hide Decide, Committed, CommittedOf, OpenCount, IdsIssued;
    var ofSymbol := if symbol == "X" then x else y;
    NewEntry(s.ledger, x, y, count, Pending(symbol, qty * 100.0, qty));
    DecideInFull(s.ledger.nextReservation, x + y, ofSymbol, count, qty);
  }

  lemma EmptyBooks()
    ensures Books(EMPTY, 0.0, 0.0, 0)
  {
    assert PositionExposures(EMPTY.positions) == map[] && PendingExposures(EMPTY.pending) == map[];
  }

  lemma WithoutEntry(l: Ledger, x: real, y: real, count: int, id: nat)
    requires Books(l, x, y, count) && id in l.pending && l.pending[id].symbol == "X"
    ensures Books(Drop(l, id), x - l.pending[id].notional, y, count - 1)
  {
    hide Committed, CommittedOf, OpenCount;
    DropTotals(l, id);
  }

  /** A fill of X opened on a ledger without positions. */
  lemma FillOpens(l: Ledger, x: real, y: real, count: int, f: Fill, released: Option<nat>) returns (l': Ledger)
    requires Books(l, x, y, count) && l.positions == map[] && ReleaseChoice(l.pending, f.symbol, released)
    requires f.symbol == "X" && Opened(f).notional <= 1000.0
    ensures exists id :: Open(l, THOUSAND, f, released) == (l', Ok(id))
    ensures
      var gain := Opened(f).notional - (if released.Some? then l.pending[released.value].notional else 0.0);
      Books(l', x + gain, y, count + (if released.Some? then 0 else 1))
    ensures l'.pending == (if released.Some? then l.pending - {released.value} else l.pending)
    ensures l'.nextReservation == l.nextReservation
  {
    hide OpenRefusal, Committed, CommittedOf, OpenCount, IdsIssued;
    FirstFillAccepted(l, f);
    InstalledTotals(l, f, released);
    InstalledIds(l, f, released);
    l' := Installed(l, f, released).0;
  }

  lemma FirstFillAccepted(l: Ledger, f: Fill)
    requires l.positions == map[] && Opened(f).notional <= 1000.0
    ensures OpenRefusal(l, THOUSAND, f).None?
  {
    assert PositionExposures(l.positions) == map[];
  }

  const SIX := Pending("X", 600.0, 6.0)
  const FOUR := Pending("X", 400.0, 4.0)
  const FOUR_Y := Pending("Y", 400.0, 4.0)

  /** Two orders fill the budget, the first for X and the second for X or Y. */
  lemma TwoOrdersPlaced(symbol: string) returns (s1: Flow, s2: Flow)
    requires XorY(symbol)
    ensures s1 == Next(START, THOUSAND, Place("X", 6.0, 100.0))
    ensures s2 == Next(s1, THOUSAND, Place(symbol, 4.0, 100.0))
    ensures s2.ledger.positions == map[] && s2.ledger.nextReservation == 3
    ensures s2.ledger.pending == s2.live == map[1 := SIX, 2 := Pending(symbol, 400.0, 4.0)]
    ensures Books(s2.ledger, if symbol == "X" then 1000.0 else 600.0, if symbol == "Y" then 400.0 else 0.0, 2)
  {
    hide Next, Books;
    EmptyBooks();
    Placed(START, 0.0, 0.0, 0, "X", 6.0);
    s1 := Flow(With(EMPTY, SIX), map[1 := SIX]);
    Placed(s1, 600.0, 0.0, 1, symbol, 4.0);
    s2 := Flow(With(s1.ledger, Pending(symbol, 400.0, 4.0)), map[1 := SIX, 2 := Pending(symbol, 400.0, 4.0)]);
  }

  lemma CompleteIs(s: Flow, id: nat, f: Fill, released: Option<nat>, l': Ledger)
    requires exists key :: Open(Drop(s.ledger, id), THOUSAND, f, released) == (l', Ok(key))
    ensures Next(s, THOUSAND, Complete(id, f, released)) == Flow(l', s.live - {id})
    ensures Accepted(s, THOUSAND, Complete(id, f, released))
  {
  }

  /** Filling the first order erases the reservation of the second: the handler consumes
      the first order's own entry by id, and what the opening then erases can only be the
      other one. That budget is granted a second time while its order is still live, and
      600 + 400 + 400 > 1000. The completion is the one event that is not guarded. */
  lemma CompletionFlowGrantsTwice() returns (s1: Flow, s2: Flow, s3: Flow, s4: Flow)
    ensures s1 == Next(START, THOUSAND, Place("X", 6.0, 100.0))
    ensures s2 == Next(s1, THOUSAND, Place("X", 4.0, 100.0))
    ensures forall released :: ReleaseChoice(Drop(s2.ledger, 1).pending, "X", released) <==> released == Some(2)
    ensures
      var fill := Complete(1, SpotBuy(6.0, 100.0), Some(2));
      && Accepted(s2, THOUSAND, fill) && AsGranted(s2, THOUSAND, fill) && !Guarded(s2, THOUSAND, fill)
      && s3 == Next(s2, THOUSAND, fill)
    ensures s4 == Next(s3, THOUSAND, Place("X", 4.0, 100.0))
    ensures s4.live == map[2 := FOUR, 3 := FOUR] && !LiveWithinLimits(s4, THOUSAND)
  {
    hide Next, Books, Committed, CommittedOf, OpenCount, OpenRefusal, ReleaseChoice;
    s1, s2 := TwoOrdersPlaced("X");
    var l := Drop(s2.ledger, 1);
    WithoutEntry(s2.ledger, 1000.0, 0.0, 2, 1);
    assert l.pending == map[2 := FOUR];
    OnlyChoice(l.pending, 2);
    var l' := FillOpens(l, 400.0, 0.0, 1, SpotBuy(6.0, 100.0), Some(2));
    s3 := Flow(l', map[2 := FOUR]);
    CompleteIs(s2, 1, SpotBuy(6.0, 100.0), Some(2), l');
    Placed(s3, 600.0, 0.0, 1, "X", 4.0);
    s4 := Flow(With(l', FOUR), map[2 := FOUR, 3 := FOUR]);
    BooksTotal(s4.ledger, 1000.0, 0.0, 2);
    AddPendingTotals(s4.ledger, 2, FOUR);
    assert s4.ledger.pending[2 := FOUR] == s4.live;
  }

  lemma OnlyChoice(pending: map<nat, Pending>, id: nat)
    requires pending == map[id := FOUR]
    ensures forall released :: ReleaseChoice(pending, "X", released) <==> released == Some(id)
  {
    assert id in pending;
  }

  /** A guarded completion at a worse price: the opening counts open positions only, so it
      accepts 660 where 600 was granted, and 660 + 400 > 1000. What was paid is not
      affordable. */
  lemma FillAboveGrantExceedsLimit() returns (s1: Flow, s2: Flow, s3: Flow)
    ensures s1 == Next(START, THOUSAND, Place("X", 6.0, 100.0))
    ensures s2 == Next(s1, THOUSAND, Place("Y", 4.0, 100.0))
    ensures
      var fill := Complete(1, SpotBuy(6.0, 110.0), None);
      && Accepted(s2, THOUSAND, fill) && Chosen(s2, THOUSAND, fill) && Guarded(s2, THOUSAND, fill)
      && s3 == Next(s2, THOUSAND, fill)
    ensures InStep(s3) && !LiveWithinLimits(s3, THOUSAND)
  {
    hide Next, Books, Committed, CommittedOf, OpenCount, OpenRefusal;
    s1, s2 := TwoOrdersPlaced("Y");
    var l := Drop(s2.ledger, 1);
    WithoutEntry(s2.ledger, 600.0, 400.0, 2, 1);
    assert l.pending == map[2 := FOUR_Y];
    var l' := FillOpens(l, 0.0, 400.0, 1, SpotBuy(6.0, 110.0), None);
    s3 := Flow(l', map[2 := FOUR_Y]);
    CompleteIs(s2, 1, SpotBuy(6.0, 110.0), None, l');
    BooksTotal(l', 660.0, 400.0, 2);
    assert l'.(pending := s3.live) == l';
  }

  lemma BooksTotal(l: Ledger, x: real, y: real, count: int)
    requires Books(l, x, y, count)
    ensures Committed(l) == x + y
  {
  }
}
