/** What the reservation ledger guarantees: the largest grant that fits, and limits
    that hold over every run of admissions. */
module ReservationLedger {
  import opened Types
  import opened RealMath
  import opened Decimal
  import opened Exposures
  import opened PositionManager

  // -------------------------------------------------------------------------
  // One reservation
  // -------------------------------------------------------------------------

  ghost predicate Affords(budget: real, qty: real, price: real) {
    qty * price <= budget
  }

  ghost predicate AffordsBoth(a: real, b: real, qty: real, price: real) {
    Affords(a, qty, price) && Affords(b, qty, price)
  }

  /** r grants the largest quantity up to `qty` that fits both budgets, approves it
      unchanged exactly when all of it fits, and is refused only when nothing fits. */
  ghost predicate IsLargestGrant(r: Reservation, a: real, b: real, qty: real, price: real) {
    && (r.approved ==>
          && 0.0 < r.approvedQty <= qty
          && r.reservedNotional == r.approvedQty * price
          && AffordsBoth(a, b, r.approvedQty, price)
          && forall q | q <= qty && AffordsBoth(a, b, q, price) :: q <= r.approvedQty)
    && (!r.approved ==> forall q | 0.0 < q <= qty :: !AffordsBoth(a, b, q, price))
    && (r.decision == Approved <==> AffordsBoth(a, b, qty, price))
    && (r.decision == Rejected <==> !r.approved)
  }

  lemma BudgetQuotient(budget: real, price: real, q: real)
    requires price > 0.0
    ensures Affords(budget, q, price) <==> q <= budget / price
    ensures q > 0.0 <==> q * price > 0.0
    ensures (budget / price) * price == budget
  {
    assert (budget / price) * price == budget;
    ScaleOrder(price, q, budget / price);
    ScaleOrder(price, q, 0.0);
  }

  lemma DecideIsMaximal(id: nat, lim: Limits, total: real, ofSymbol: real, count: int, qty: real, price: real)
    requires qty > 0.0 && price > 0.0 && count < lim.maxOpen
    ensures IsLargestGrant(Decide(id, lim, total, ofSymbol, count, qty, price),
                           lim.maxTotal - total, lim.maxSymbol - ofSymbol, qty, price)
  {
    var a, b := lim.maxTotal - total, lim.maxSymbol - ofSymbol;
    var budget := MinR(a, b);
    forall q
      ensures AffordsBoth(a, b, q, price) <==> q <= budget / price
    {
      BudgetQuotient(budget, price, q);
    }
    BudgetQuotient(budget, price, qty);
    BudgetQuotient(budget, price, budget / price);
  }

  /** When the count limit allows it, the grant is the largest quantity up to the
      request that fits what positions and reservations leave of both limits. */
  lemma GrantIsMaximal(l: Ledger, lim: Limits, symbol: string, qty: real, price: real)
    requires qty > 0.0 && price > 0.0 && OpenCount(l) < lim.maxOpen
    ensures IsLargestGrant(Reserve(l, lim, symbol, qty, price).1,
                           lim.maxTotal - Committed(l), lim.maxSymbol - CommittedOf(l, symbol), qty, price)
  {
    DecideIsMaximal(l.nextReservation, lim, Committed(l), CommittedOf(l, symbol), OpenCount(l), qty, price);
  }

  /** The "no remaining notional budget" branch is dead, for every input. */
  lemma NoBudgetLeftIsUnreachable(id: nat, lim: Limits, total: real, ofSymbol: real, count: int, qty: real, price: real)
    ensures Decide(id, lim, total, ofSymbol, count, qty, price).reason != NoBudgetLeft
  {
    var budget := MinR(lim.maxTotal - total, lim.maxSymbol - ofSymbol);
    if budget > 0.0 && price > 0.0 {
      assert (budget / price) * price == budget;
      ScaleOrder(price, qty, budget / price);
      ScaleOrder(price, budget / price, 0.0);
    }
  }

  /** The decision for every request whatever, and what the ledger then holds: granted in
      full exactly when all of it fits all three limits; reduced exactly when it does not,
      a place is free, the price is positive and something is left of both budgets, and
      then to just that; otherwise refused. */
  lemma ReservationExactly(l: Ledger, lim: Limits, symbol: string, qty: real, price: real)
    ensures
      var left := MinR(lim.maxTotal - Committed(l), lim.maxSymbol - CommittedOf(l, symbol));
      var place := |l.positions| + |l.pending| < lim.maxOpen;
      var (l', r) := Reserve(l, lim, symbol, qty, price);
      && (r.decision == Approved <==> qty * price <= left && place)
      && (r.decision == Modified <==> qty * price > left && place && price > 0.0 && left > 0.0)
      && (r.decision == Approved ==> r.approvedQty == qty)
      && (r.decision == Modified ==> r.approvedQty * price == left && r.approvedQty < qty)
      && (r.decision == Rejected ==> !r.approved && r.approvedQty == 0.0 && r.code == PositionLimitHit)
      && (r.decision != Rejected ==> r.approved && r.code == NoError)
      && r.reservedNotional == r.approvedQty * price && r.id == l.nextReservation
      && l' == l.(nextReservation := l.nextReservation + 1,
                  pending := if r.approved then l.pending[r.id := Pending(symbol, r.approvedQty * price, r.approvedQty)] else l.pending)
  {
    hide Committed, CommittedOf;
    var left := MinR(lim.maxTotal - Committed(l), lim.maxSymbol - CommittedOf(l, symbol));
    if price > 0.0 {
      BudgetQuotient(left, price, qty);
      BudgetQuotient(left, price, left / price);
    }
  }

  // -------------------------------------------------------------------------
  // Limits over runs
  // -------------------------------------------------------------------------

  /** Every id in use was issued by one of the counters. */
  ghost predicate IdsIssued(l: Ledger) {
    && (forall id <- l.pending :: id < l.nextReservation)
    && (forall id <- l.positions :: Issued(id, l.nextPosition))
  }

  ghost predicate Issued(id: string, upTo: nat) {
    exists symbol, side, n: nat :: n <= upTo && id == PositionId(symbol, side, n)
  }

  /** Open and pending business together respects the three limits. */
  ghost predicate WithinLimits(l: Ledger, lim: Limits) {
    && Committed(l) <= lim.maxTotal
    && (forall s :: CommittedOf(l, s) <= lim.maxSymbol)
    && OpenCount(l) <= lim.maxOpen
  }

  ghost predicate Admitted(l: Ledger, lim: Limits) {
    && IdsIssued(l)
    && (forall id <- l.positions :: l.positions[id].notional >= 0.0)
    && (forall id <- l.pending :: l.pending[id].notional >= 0.0)
    && WithinLimits(l, lim)
  }

  datatype Op =
    | DoReserve(symbol: string, qty: real, price: real)
    | DoDrop(id: nat)
    | DoOpen(fill: Fill, released: Option<nat>)
    | DoClose(position: string, qty: real, exit: real)

  ghost function Apply(l: Ledger, lim: Limits, op: Op): Ledger {
    match op
    case DoReserve(symbol, qty, price) => Reserve(l, lim, symbol, qty, price).0
    case DoDrop(id) => Drop(l, id)
    case DoOpen(fill, released) => Open(l, lim, fill, released).0
    case DoClose(id, qty, exit) => Close(l, id, qty, exit).0
  }

  /** Sizes and prices are not negative, closes are full, and the erased reservation is
      one the scan can meet. */
  ghost predicate Plain(l: Ledger, lim: Limits, op: Op) {
    match op
    case DoReserve(_, qty, price) => qty >= 0.0 && price >= 0.0
    case DoDrop(_) => true
    case DoClose(id, qty, _) => id in l.positions ==> qty >= l.positions[id].quantity
    case DoOpen(fill, released) =>
      && Opened(fill).notional >= 0.0
      && (OpenRefusal(l, lim, fill).None? ==> ReleaseChoice(l.pending, fill.symbol, released))
  }

  /** The check to make before an open: after crediting the reservation it erases, the
      fill fits all three limits, pending reservations included. */
  ghost predicate FitsAfterCredit(l: Ledger, lim: Limits, f: Fill, released: Option<nat>)
    requires released.Some? ==> released.value in l.pending
  {
    var credit := if released.Some? then l.pending[released.value].notional else 0.0;
    && Committed(l) + Opened(f).notional <= lim.maxTotal + credit
    && CommittedOf(l, f.symbol) + Opened(f).notional <= lim.maxSymbol + credit
    && (released.None? ==> OpenCount(l) < lim.maxOpen)
  }

  ghost predicate Fitting(l: Ledger, lim: Limits, op: Op)
    requires Plain(l, lim, op)
  {
    op.DoOpen? && OpenRefusal(l, lim, op.fill).None? ==> FitsAfterCredit(l, lim, op.fill, op.released)
  }

  /** In particular an open fits that replaces a reservation at least as large as itself. */
  ghost predicate Covered(l: Ledger, lim: Limits, op: Op)
    requires Plain(l, lim, op)
  {
    op.DoOpen? && OpenRefusal(l, lim, op.fill).None? ==>
      op.released.Some? && l.pending[op.released.value].notional >= Opened(op.fill).notional
  }

  ghost function Run(l: Ledger, lim: Limits, ops: seq<Op>): Ledger
    decreases |ops|
  {
    if ops == [] then l else Run(Apply(l, lim, ops[0]), lim, ops[1..])
  }

  ghost predicate PlainRun(l: Ledger, lim: Limits, ops: seq<Op>)
    decreases |ops|
  {
    ops == [] || (Plain(l, lim, ops[0]) && PlainRun(Apply(l, lim, ops[0]), lim, ops[1..]))
  }

  ghost predicate FittingRun(l: Ledger, lim: Limits, ops: seq<Op>)
    requires PlainRun(l, lim, ops)
    decreases |ops|
  {
    ops == [] || (Fitting(l, lim, ops[0]) && FittingRun(Apply(l, lim, ops[0]), lim, ops[1..]))
  }

  ghost predicate CoveredRun(l: Ledger, lim: Limits, ops: seq<Op>)
    requires PlainRun(l, lim, ops)
    decreases |ops|
  {
    ops == [] || (Covered(l, lim, ops[0]) && CoveredRun(Apply(l, lim, ops[0]), lim, ops[1..]))
  }

  ghost predicate WithinThroughout(l: Ledger, lim: Limits, ops: seq<Op>)
    decreases |ops|
  {
    WithinLimits(l, lim) && (ops == [] || WithinThroughout(Apply(l, lim, ops[0]), lim, ops[1..]))
  }

  lemma NewPositionIdIsFresh(l: Ledger, symbol: string, side: Side)
    requires IdsIssued(l)
    ensures PositionId(symbol, side, l.nextPosition + 1) !in l.positions
  {
    var id := PositionId(symbol, side, l.nextPosition + 1);
    if id in l.positions {
      assert Issued(id, l.nextPosition);
      var symbol', side', n: nat :| n <= l.nextPosition && id == PositionId(symbol', side', n);
      SuffixDeterminesCounter(symbol + (if side.Buy? then "_Buy" else "_Sell"), l.nextPosition + 1,
                              symbol' + (if side'.Buy? then "_Buy" else "_Sell"), n);
    }
  }

  /** Committed totals after a reservation entry is dropped. */
  lemma DropTotals(l: Ledger, id: nat)
    requires id in l.pending
    ensures Committed(Drop(l, id)) == Committed(l) - l.pending[id].notional
    ensures forall s :: CommittedOf(Drop(l, id), s) ==
              CommittedOf(l, s) - (if l.pending[id].symbol == s then l.pending[id].notional else 0.0)
    ensures OpenCount(Drop(l, id)) == OpenCount(l) - 1
  {
    assert PendingExposures(l.pending - {id}) == PendingExposures(l.pending) - {id};
    Remove(PendingExposures(l.pending), id);
    assert (l.pending - {id}).Keys == l.pending.Keys - {id};
  }

  lemma AddPositionTotals(l: Ledger, id: string, p: Position)
    requires id !in l.positions
    ensures
      var l' := l.(positions := l.positions[id := p]);
      && Committed(l') == Committed(l) + p.notional
      && (forall s :: CommittedOf(l', s) == CommittedOf(l, s) + (if p.symbol == s then p.notional else 0.0))
      && OpenCount(l') == OpenCount(l) + 1
  {
    assert PositionExposures(l.positions[id := p]) ==
           PositionExposures(l.positions)[id := Exposure(p.symbol, p.notional)];
    Add(PositionExposures(l.positions), id, Exposure(p.symbol, p.notional));
  }

  lemma DropKeepsAdmitted(l: Ledger, lim: Limits, id: nat)
    requires Admitted(l, lim)
    ensures Admitted(Drop(l, id), lim)
  {
    if id in l.pending {
      DropTotals(l, id);
    } else {
      assert l.pending - {id} == l.pending;
    }
  }

  lemma RemovalKeepsLimits(l: Ledger, lim: Limits, id: string, p: Position)
    requires id !in l.positions && p.notional >= 0.0
    requires WithinLimits(l.(positions := l.positions[id := p]), lim)
    ensures WithinLimits(l, lim)
  {
    hide Committed, CommittedOf, OpenCount;
    AddPositionTotals(l, id, p);
  }

  lemma RemovalKeepsRest(l: Ledger, l': Ledger, lim: Limits, id: string)
    requires Admitted(l, lim) && l' == l.(positions := l.positions - {id}) && WithinLimits(l', lim)
    ensures Admitted(l', lim)
  {
    hide WithinLimits, Issued;
  }

  lemma FullClose(l: Ledger, id: string, qty: real, exit: real)
    requires id in l.positions && qty >= l.positions[id].quantity
    ensures Close(l, id, qty, exit).0 == l.(positions := l.positions - {id})
  {
  }

  lemma CloseKeepsAdmitted(l: Ledger, lim: Limits, id: string, qty: real, exit: real)
    requires Admitted(l, lim) && Plain(l, lim, DoClose(id, qty, exit))
    ensures Admitted(Close(l, id, qty, exit).0, lim)
  {
    if id in l.positions {
      var l', p := l.(positions := l.positions - {id}), l.positions[id];
      FullClose(l, id, qty, exit);
      hide Close, WithinLimits, Issued, IdsIssued;
      assert l'.(positions := l'.positions[id := p]) == l by {
        assert l'.positions[id := p] == l.positions;
      }
      RemovalKeepsLimits(l', lim, id, p);
      RemovalKeepsRest(l, l', lim, id);
    }
  }

  lemma AddPendingTotals(l: Ledger, id: nat, p: Pending)
    requires id !in l.pending
    ensures
      var l' := l.(pending := l.pending[id := p]);
      && Committed(l') == Committed(l) + p.notional
      && (forall s :: CommittedOf(l', s) == CommittedOf(l, s) + (if p.symbol == s then p.notional else 0.0))
      && OpenCount(l') == OpenCount(l) + 1
  {
    assert PendingExposures(l.pending[id := p]) ==
           PendingExposures(l.pending)[id := Exposure(p.symbol, p.notional)];
    Add(PendingExposures(l.pending), id, Exposure(p.symbol, p.notional));
  }

  /** A grant is never negative and never exceeds what is left. */
  lemma DecideFits(id: nat, lim: Limits, total: real, ofSymbol: real, count: int, qty: real, price: real)
    requires qty >= 0.0 && price >= 0.0
    ensures
      var r := Decide(id, lim, total, ofSymbol, count, qty, price);
      && r.id == id
      && (r.approved ==>
            && r.reservedNotional >= 0.0 && count < lim.maxOpen
            && total + r.reservedNotional <= lim.maxTotal && ofSymbol + r.reservedNotional <= lim.maxSymbol)
  {
    assert qty * price >= 0.0;
    var budget := MinR(lim.maxTotal - total, lim.maxSymbol - ofSymbol);
    if price > 0.0 {
      BudgetQuotient(budget, price, budget / price);
    }
  }

  lemma ReserveKeepsAdmitted(l: Ledger, lim: Limits, symbol: string, qty: real, price: real)
    requires Admitted(l, lim) && qty >= 0.0 && price >= 0.0
    ensures Admitted(Reserve(l, lim, symbol, qty, price).0, lim)
  {
    var (l', r) := Reserve(l, lim, symbol, qty, price);
    DecideFits(l.nextReservation, lim, Committed(l), CommittedOf(l, symbol), OpenCount(l), qty, price);
    if r.approved {
      var p := Pending(symbol, r.reservedNotional, r.approvedQty);
      AddPendingTotals(l, r.id, p);
      RenumberKeeps(l.(pending := l.pending[r.id := p]), l');
    } else {
      RenumberKeeps(l, l');
    }
  }

  /** The counters take no part in the totals. */
  lemma RenumberKeeps(l: Ledger, l': Ledger)
    requires l'.positions == l.positions && l'.pending == l.pending
    ensures Committed(l') == Committed(l) && OpenCount(l') == OpenCount(l)
    ensures forall s :: CommittedOf(l', s) == CommittedOf(l, s)
  {
  }

  lemma InstalledIds(l: Ledger, f: Fill, released: Option<nat>)
    requires IdsIssued(l)
    ensures IdsIssued(Installed(l, f, released).0)
  {
    var n := l.nextPosition + 1;
    var l' := Installed(l, f, released).0;
    forall key <- l'.positions
      ensures Issued(key, n)
    {
      if key != PositionId(f.symbol, f.side, n) {
        assert Issued(key, l.nextPosition);
      }
    }
  }

  /** What the ledger holds after an accepted open. */
  lemma InstalledTotals(l: Ledger, f: Fill, released: Option<nat>)
    requires IdsIssued(l) && ReleaseChoice(l.pending, f.symbol, released)
    ensures
      var l' := Installed(l, f, released).0;
      var gain := Opened(f).notional - (if released.Some? then l.pending[released.value].notional else 0.0);
      && Committed(l') == Committed(l) + gain
      && (forall s :: CommittedOf(l', s) == CommittedOf(l, s) + (if s == f.symbol then gain else 0.0))
      && OpenCount(l') == OpenCount(l) + (if released.Some? then 0 else 1)
  {
    var id := PositionId(f.symbol, f.side, l.nextPosition + 1);
    NewPositionIdIsFresh(l, f.symbol, f.side);
    AddPositionTotals(l, id, Opened(f));
    var added := l.(positions := l.positions[id := Opened(f)]);
    if released.Some? {
      DropTotals(added, released.value);
      RenumberKeeps(Drop(added, released.value), Installed(l, f, released).0);
    } else {
      RenumberKeeps(added, Installed(l, f, released).0);
    }
  }

  /** An accepted open keeps the limits exactly when, after crediting what it
      releases, the fill still fits all three of them. */
  lemma OpenKeepsLimitsExactlyWhen(l: Ledger, lim: Limits, f: Fill, released: Option<nat>)
    requires Admitted(l, lim) && ReleaseChoice(l.pending, f.symbol, released)
    requires OpenRefusal(l, lim, f).None?
    ensures WithinLimits(Open(l, lim, f, released).0, lim) <==> FitsAfterCredit(l, lim, f, released)
  {
    InstalledTotals(l, f, released);
    var l' := Open(l, lim, f, released).0;
    assert CommittedOf(l', f.symbol) <= lim.maxSymbol ==> forall s :: CommittedOf(l', s) <= lim.maxSymbol;
  }

  lemma StepWithinExactlyWhen(l: Ledger, lim: Limits, op: Op)
    requires Admitted(l, lim) && Plain(l, lim, op)
    ensures WithinLimits(Apply(l, lim, op), lim) <==> Fitting(l, lim, op)
    ensures Fitting(l, lim, op) ==> Admitted(Apply(l, lim, op), lim)
  {
    match op
    case DoReserve(symbol, qty, price) => ReserveKeepsAdmitted(l, lim, symbol, qty, price);
    case DoDrop(id) => DropKeepsAdmitted(l, lim, id);
    case DoClose(id, qty, exit) => CloseKeepsAdmitted(l, lim, id, qty, exit);
    case DoOpen(fill, released) =>
      if OpenRefusal(l, lim, fill).None? {
        InstalledIds(l, fill, released);
        OpenKeepsLimitsExactlyWhen(l, lim, fill, released);
      }
  }

  lemma EmptyIsAdmitted(lim: Limits)
    requires lim.maxTotal >= 0.0 && lim.maxSymbol >= 0.0 && lim.maxOpen >= 0
    ensures Admitted(EMPTY, lim)
  {
  }

  /** Over every run of reserve, cancel, consume, full close and open calls: positions and
      reservations together stay within every limit at all times if and only if each
      accepted open fits after crediting the reservation it erases. */
  lemma {:induction false} LimitsHoldExactlyWhen(l: Ledger, lim: Limits, ops: seq<Op>)
    requires Admitted(l, lim) && PlainRun(l, lim, ops)
    ensures WithinThroughout(l, lim, ops) <==> FittingRun(l, lim, ops)
    decreases |ops|
  {
    hide Apply, Plain, Fitting, WithinLimits;
    AdmittedIsWithin(l, lim);
    if ops != [] {
      StepWithinExactlyWhen(l, lim, ops[0]);
      if Fitting(l, lim, ops[0]) {
        LimitsHoldExactlyWhen(Apply(l, lim, ops[0]), lim, ops[1..]);
      } else {
        assert !WithinThroughout(Apply(l, lim, ops[0]), lim, ops[1..]);
      }
    }
  }

  lemma AdmittedIsWithin(l: Ledger, lim: Limits)
    requires Admitted(l, lim)
    ensures WithinLimits(l, lim)
  {
  }

  lemma CoveredFits(l: Ledger, lim: Limits, op: Op)
    requires Admitted(l, lim) && Plain(l, lim, op) && Covered(l, lim, op)
    ensures Fitting(l, lim, op)
  {
  }

  /** In particular when every accepted open is covered by what it erases. */
  lemma {:induction false} LimitsHoldOverRuns(l: Ledger, lim: Limits, ops: seq<Op>)
    requires Admitted(l, lim) && PlainRun(l, lim, ops) && CoveredRun(l, lim, ops)
    ensures WithinThroughout(l, lim, ops)
    decreases |ops|
  {
    hide Apply, Plain, Fitting, Covered, WithinLimits;
    AdmittedIsWithin(l, lim);
    if ops != [] {
      CoveredFits(l, lim, ops[0]);
      StepWithinExactlyWhen(l, lim, ops[0]);
      LimitsHoldOverRuns(Apply(l, lim, ops[0]), lim, ops[1..]);
    }
  }
}
