/** When a fill is let in: open positions alone are held against the three limits. */
module Admission {
  import opened Types
  import opened Decimal
  import opened Exposures
  import opened PositionManager
  import opened ReservationLedger

  ghost predicate HeldWithin(held: map<string, Exposure>, lim: Limits) {
    Total(held) <= lim.maxTotal && forall s :: OfSymbol(held, s) <= lim.maxSymbol
  }

  /** Open positions alone respect the three limits. */
  ghost predicate PositionsWithin(l: Ledger, lim: Limits) {
    HeldWithin(PositionExposures(l.positions), lim) && |l.positions| <= lim.maxOpen
  }

  /** A fill is accepted exactly when, beside the open positions, its notional fits the
      total limit and that of its symbol, and there is a place for one more position. The
      symbol limit is named only when the two others are met. A refusal changes nothing. */
  lemma AcceptedExactlyWhen(l: Ledger, lim: Limits, f: Fill, released: Option<nat>)
    ensures
      var held, notional := PositionExposures(l.positions), f.qty * f.entryPrice * f.quanto;
      var total_fits, symbol_fits := Total(held) + notional <= lim.maxTotal, OfSymbol(held, f.symbol) + notional <= lim.maxSymbol;
      var place := |l.positions| < lim.maxOpen;
      var (l', result) := Open(l, lim, f, released);
      && (result.Ok? <==> total_fits && symbol_fits && place)
      && (result == Err(SymbolLimitHit) <==> total_fits && place && !symbol_fits)
      && (result == Err(PositionLimitHit) <==> !total_fits || !place)
      && (result.Err? ==> l' == l)
  {
    hide Total, OfSymbol;
  }

  /** What an accepted fill becomes: one position under a fresh id, made of its own terms,
      beside all the others. */
  lemma AcceptedFillIsHeld(l: Ledger, lim: Limits, f: Fill, released: Option<nat>)
    requires IdsIssued(l) && Open(l, lim, f, released).1.Ok?
    ensures
      var (l', result) := Open(l, lim, f, released);
      var id := result.value;
      && id == f.symbol + (if f.side == Buy then "_Buy_" else "_Sell_") + Digits(l'.nextPosition)
      && l'.nextPosition == l.nextPosition + 1
      && id !in l.positions && l'.positions == l.positions[id := l'.positions[id]]
      && var p := l'.positions[id];
         && p.symbol == f.symbol && p.side == f.side && p.quantity == f.qty && p.strategyId == f.strategyId
         && p.marketType == f.marketType && p.leverage == f.leverage && p.quanto == f.quanto
         && p.entryPrice == p.currentPrice == f.entryPrice
         && p.notional == f.qty * f.entryPrice * f.quanto
  {
    hide OpenRefusal, IdsIssued, PositionId;
    PositionIdReads(f.symbol, f.side, l.nextPosition + 1);
    NewPositionIdIsFresh(l, f.symbol, f.side);
  }

  lemma PositionIdReads(symbol: string, side: Side, n: nat)
    ensures PositionId(symbol, side, n) == symbol + (if side == Buy then "_Buy_" else "_Sell_") + Digits(n)
  {
    assert ("_Buy" + "_") == "_Buy_" && ("_Sell" + "_") == "_Sell_";
    assert symbol + "_Buy" + "_" == symbol + ("_Buy" + "_") && symbol + "_Sell" + "_" == symbol + ("_Sell" + "_");
  }

  // -------------------------------------------------------------------------
  // Over runs
  // -------------------------------------------------------------------------

  /** Fills are not of negative notional, and closes are full. */
  ghost predicate Sized(l: Ledger, op: Op) {
    match op
    case DoReserve(_, _, _) => true
    case DoDrop(_) => true
    case DoOpen(fill, _) => fill.qty * fill.entryPrice * fill.quanto >= 0.0
    case DoClose(id, qty, _) => id in l.positions ==> qty >= l.positions[id].quantity
  }

  ghost predicate SizedRun(l: Ledger, lim: Limits, ops: seq<Op>)
    decreases |ops|
  {
    ops == [] || (Sized(l, ops[0]) && SizedRun(Apply(l, lim, ops[0]), lim, ops[1..]))
  }

  ghost predicate PositionsWithinThroughout(l: Ledger, lim: Limits, ops: seq<Op>)
    decreases |ops|
  {
    PositionsWithin(l, lim) && (ops == [] || PositionsWithinThroughout(Apply(l, lim, ops[0]), lim, ops[1..]))
  }

  ghost predicate Kept(l: Ledger, lim: Limits) {
    && IdsIssued(l) && (forall id <- l.positions :: l.positions[id].notional >= 0.0)
    && PositionsWithin(l, lim)
  }

  lemma SamePositions(l: Ledger, l': Ledger, lim: Limits)
    requires Kept(l, lim) && l'.positions == l.positions && l'.nextPosition == l.nextPosition && IdsIssued(l')
    ensures Kept(l', lim)
  {
  }

  /** One more position that fits. */
  lemma OneMoreWithin(l: Ledger, l': Ledger, lim: Limits, id: string, p: Position)
    requires PositionsWithin(l, lim) && id !in l.positions && l'.positions == l.positions[id := p]
    requires Total(PositionExposures(l.positions)) + p.notional <= lim.maxTotal
    requires OfSymbol(PositionExposures(l.positions), p.symbol) + p.notional <= lim.maxSymbol
    requires |l.positions| < lim.maxOpen
    ensures PositionsWithin(l', lim)
  {
    hide Total, OfSymbol, HeldWithin, PositionExposures;
    var held, e := PositionExposures(l.positions), Exposure(p.symbol, p.notional);
    ExposuresOfUpdate(l.positions, id, p);
    HeldOneMore(held, id, e, lim);
    assert l'.positions.Keys == l.positions.Keys + {id};
  }

  lemma ExposuresOfUpdate(ps: map<string, Position>, id: string, p: Position)
    ensures PositionExposures(ps[id := p]) == PositionExposures(ps)[id := Exposure(p.symbol, p.notional)]
    ensures id in PositionExposures(ps) <==> id in ps
  {
  }

  lemma HeldOneMore(held: map<string, Exposure>, id: string, e: Exposure, lim: Limits)
    requires HeldWithin(held, lim) && id !in held
    requires Total(held) + e.notional <= lim.maxTotal && OfSymbol(held, e.symbol) + e.notional <= lim.maxSymbol
    ensures HeldWithin(held[id := e], lim)
  {
    hide Total, OfSymbol;
    Add(held, id, e);
    var more := held[id := e];
    forall s
      ensures OfSymbol(more, s) <= lim.maxSymbol
    {
      assert OfSymbol(held, s) <= lim.maxSymbol;
    }
  }

  lemma OpenKeeps(l: Ledger, lim: Limits, f: Fill, released: Option<nat>)
    requires Kept(l, lim) && f.qty * f.entryPrice * f.quanto >= 0.0
    ensures Kept(Open(l, lim, f, released).0, lim)
  {
    hide Total, OfSymbol, PositionsWithin, IdsIssued, Opened, OpenRefusal;
    AcceptedExactlyWhen(l, lim, f, released);
    if Open(l, lim, f, released).1.Ok? {
      var l', id := Open(l, lim, f, released).0, Open(l, lim, f, released).1.value;
      AcceptedFillIsHeld(l, lim, f, released);
      InstalledIds(l, f, released);
      OneMoreWithin(l, l', lim, id, l'.positions[id]);
    }
  }

  lemma CloseKeeps(l: Ledger, lim: Limits, id: string, qty: real, exit: real)
    requires Kept(l, lim) && (id in l.positions ==> qty >= l.positions[id].quantity)
    ensures Kept(Close(l, id, qty, exit).0, lim)
  {
    hide Total, OfSymbol, Issued;
    if id in l.positions {
      FullClose(l, id, qty, exit);
      var held, left := PositionExposures(l.positions), l.positions - {id};
      assert PositionExposures(left) == held - {id};
      Remove(held, id);
      assert left.Keys == l.positions.Keys - {id};
    }
  }

  lemma ApplyKeeps(l: Ledger, lim: Limits, op: Op)
    requires Kept(l, lim) && Sized(l, op)
    ensures Kept(Apply(l, lim, op), lim)
  {
    match op
    case DoReserve(symbol, qty, price) => ReserveLeavesPositions(l, lim, symbol, qty, price);
    case DoDrop(id) => SamePositions(l, Drop(l, id), lim);
    case DoOpen(fill, released) => OpenKeeps(l, lim, fill, released);
    case DoClose(id, qty, exit) => CloseKeeps(l, lim, id, qty, exit);
  }

  lemma ReserveLeavesPositions(l: Ledger, lim: Limits, symbol: string, qty: real, price: real)
    requires Kept(l, lim)
    ensures Kept(Reserve(l, lim, symbol, qty, price).0, lim)
  {
    hide Total, OfSymbol, Committed, CommittedOf, Issued;
    SamePositions(l, Reserve(l, lim, symbol, qty, price).0, lim);
  }

  /** Over every run of reserve, cancel, consume, open and full close calls, whatever is
      reserved: open positions alone stay within all three limits at all times. */
  lemma {:induction false} PositionsStayWithin(l: Ledger, lim: Limits, ops: seq<Op>)
    requires Kept(l, lim) && SizedRun(l, lim, ops)
    ensures PositionsWithinThroughout(l, lim, ops)
    decreases |ops|
  {
    hide Apply, Sized, PositionsWithin;
    KeptIsWithin(l, lim);
    if ops != [] {
      ApplyKeeps(l, lim, ops[0]);
      PositionsStayWithin(Apply(l, lim, ops[0]), lim, ops[1..]);
    }
  }

  lemma KeptIsWithin(l: Ledger, lim: Limits)
    requires Kept(l, lim)
    ensures PositionsWithin(l, lim)
  {
  }

  lemma EmptyIsKept(lim: Limits)
    requires lim.maxTotal >= 0.0 && lim.maxSymbol >= 0.0 && lim.maxOpen >= 0
    ensures Kept(EMPTY, lim)
  {
  }
}
