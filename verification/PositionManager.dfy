/** Open positions and pending notional reservations under three limits, updated by
    calls that each run under one exclusive lock. */
module PositionManager {
  import opened Types
  import opened Decimal
  import opened Exposures

  // -------------------------------------------------------------------------
  // Data
  // -------------------------------------------------------------------------

  datatype Position = Position(
    symbol: string, side: Side, quantity: real, entryPrice: real, currentPrice: real,
    unrealizedPnl: real, notional: real, strategyId: string,
    marketType: MarketType, leverage: real, quanto: real,
    marginUsed: real, liquidationPrice: real)

  datatype Pending = Pending(symbol: string, notional: real, qty: real)

  datatype Limits = Limits(maxTotal: real, maxOpen: int, maxSymbol: real)

  datatype Reason = Fits | Reduced | CountLimit | NoBudgetLeft | NotionalLimit

  datatype Reservation = Reservation(
    id: nat, approved: bool, approvedQty: real, reservedNotional: real,
    decision: RiskDecision, code: ErrorCode, reason: Reason)

  /** What a fill asks to open. */
  datatype Fill = Fill(
    symbol: string, side: Side, qty: real, entryPrice: real, strategyId: string,
    marketType: MarketType, leverage: real, quanto: real, maintenanceRate: real)

  datatype Ledger = Ledger(
    positions: map<string, Position>, pending: map<nat, Pending>,
    nextPosition: nat, nextReservation: nat)

  const EMPTY := Ledger(map[], map[], 0, 1)

  // -------------------------------------------------------------------------
  // Single positions
  // -------------------------------------------------------------------------

  function UnrealizedPnl(side: Side, entry: real, current: real, qty: real, leverage: real, quanto: real): real {
    if side.Buy? then (current - entry) * qty * quanto * leverage
    else (entry - current) * qty * quanto * leverage
  }

  function Margin(marketType: MarketType, qty: real, entry: real, quanto: real, leverage: real): real {
    if marketType.Futures? && leverage > 0.0 then qty * entry * quanto / leverage else 0.0
  }

  function LiquidationPrice(f: Fill): real {
    if f.marketType.Futures? && f.leverage > 1.0 then
      if f.side.Buy? then f.entryPrice * (1.0 - 1.0 / f.leverage + f.maintenanceRate)
      else f.entryPrice * (1.0 + 1.0 / f.leverage - f.maintenanceRate)
    else 0.0
  }

  function Opened(f: Fill): Position {
    Position(f.symbol, f.side, f.qty, f.entryPrice, f.entryPrice, 0.0, f.qty * f.entryPrice * f.quanto,
             f.strategyId, f.marketType, f.leverage, f.quanto,
             Margin(f.marketType, f.qty, f.entryPrice, f.quanto, f.leverage), LiquidationPrice(f))
  }

  function Marked(p: Position, price: real): Position {
    p.(currentPrice := price,
       unrealizedPnl := UnrealizedPnl(p.side, p.entryPrice, price, p.quantity, p.leverage, p.quanto),
       notional := AbsR(p.quantity * price * p.quanto))
  }

  /** What is left after closing `qty` < p.quantity at `exit`. */
  function PartlyClosed(p: Position, qty: real, exit: real): Position {
    var q := Marked(p.(quantity := p.quantity - qty), exit);
    if p.marketType.Futures? && p.leverage > 0.0 then
      q.(marginUsed := q.quantity * p.entryPrice * p.quanto / p.leverage)
    else q
  }

  function Realized(p: Position, qty: real, exit: real): real {
    var direction := if p.side.Buy? then 1.0 else -1.0;
    direction * (exit - p.entryPrice) * MinR(qty, p.quantity) * p.quanto * p.leverage
  }

  // -------------------------------------------------------------------------
  // The ledger's operations
  // -------------------------------------------------------------------------

  function PositionExposures(ps: map<string, Position>): map<string, Exposure> {
    map id | id in ps :: Exposure(ps[id].symbol, ps[id].notional)
  }

  function PendingExposures(rs: map<nat, Pending>): map<nat, Exposure> {
    map id | id in rs :: Exposure(rs[id].symbol, rs[id].notional)
  }

  /** Notional of positions and reservations together. */
  ghost function Committed(l: Ledger): real {
    Total(PositionExposures(l.positions)) + Total(PendingExposures(l.pending))
  }

  ghost function CommittedOf(l: Ledger, s: string): real {
    OfSymbol(PositionExposures(l.positions), s) + OfSymbol(PendingExposures(l.pending), s)
  }

  function OpenCount(l: Ledger): nat {
    |l.positions| + |l.pending|
  }

  /** The decision, given the committed totals. */
  function Decide(id: nat, lim: Limits, total: real, ofSymbol: real, count: int, qty: real, price: real): Reservation {
    var proposed := qty * price;
    if total + proposed <= lim.maxTotal && count < lim.maxOpen && ofSymbol + proposed <= lim.maxSymbol then
      Reservation(id, true, qty, proposed, Approved, NoError, Fits)
    else if count >= lim.maxOpen then
      Reservation(id, false, 0.0, 0.0, Rejected, PositionLimitHit, CountLimit)
    else
      var budget := MinR(lim.maxTotal - total, lim.maxSymbol - ofSymbol);
      if budget > 0.0 && price > 0.0 then
        var reduced := budget / price;
        if reduced > 0.0 && reduced < qty then
          Reservation(id, true, reduced, reduced * price, Modified, NoError, Reduced)
        else
          Reservation(id, false, 0.0, 0.0, Rejected, PositionLimitHit, NoBudgetLeft)
      else
        Reservation(id, false, 0.0, 0.0, Rejected, PositionLimitHit, NotionalLimit)
  }

  ghost function Reserve(l: Ledger, lim: Limits, symbol: string, qty: real, price: real): (Ledger, Reservation) {
    var r := Decide(l.nextReservation, lim, Committed(l), CommittedOf(l, symbol), OpenCount(l), qty, price);
    var pending := if r.approved then l.pending[r.id := Pending(symbol, r.reservedNotional, r.approvedQty)] else l.pending;
    (l.(nextReservation := l.nextReservation + 1, pending := pending), r)
  }

  /** consumeReservation and cancelReservation both drop the entry; id 0 is never issued. */
  function Drop(l: Ledger, id: nat): Ledger {
    l.(pending := l.pending - {id})
  }

  function PositionId(symbol: string, side: Side, n: nat): string {
    symbol + (if side.Buy? then "_Buy" else "_Sell") + "_" + Digits(n)
  }

  /** The reservation an open erases: some entry of the symbol if there is any. */
  predicate ReleaseChoice(pending: map<nat, Pending>, symbol: string, released: Option<nat>) {
    match released
    case Some(id) => id in pending && pending[id].symbol == symbol
    case None => forall id <- pending :: pending[id].symbol != symbol
  }

  /** Why an open is refused: only positions count here, pending reservations do not. */
  function Refusal(lim: Limits, total: real, ofSymbol: real, count: int, proposed: real): Option<ErrorCode> {
    if total + proposed > lim.maxTotal then Some(PositionLimitHit)
    else if count >= lim.maxOpen then Some(PositionLimitHit)
    else if ofSymbol + proposed > lim.maxSymbol then Some(SymbolLimitHit)
    else None
  }

  ghost function OpenRefusal(l: Ledger, lim: Limits, f: Fill): Option<ErrorCode> {
    var exposures := PositionExposures(l.positions);
    Refusal(lim, Total(exposures), OfSymbol(exposures, f.symbol), |l.positions|, Opened(f).notional)
  }

  function Installed(l: Ledger, f: Fill, released: Option<nat>): (Ledger, string) {
    var n := l.nextPosition + 1;
    var id := PositionId(f.symbol, f.side, n);
    var pending := if released.Some? then l.pending - {released.value} else l.pending;
    (l.(positions := l.positions[id := Opened(f)], nextPosition := n, pending := pending), id)
  }

  ghost function Open(l: Ledger, lim: Limits, f: Fill, released: Option<nat>): (Ledger, Result<string, ErrorCode>) {
    match OpenRefusal(l, lim, f)
    case Some(code) => (l, Err(code))
    case None => var (l', id) := Installed(l, f, released); (l', Ok(id))
  }

  function Close(l: Ledger, id: string, qty: real, exit: real): (Ledger, Option<real>) {
    if id !in l.positions then (l, None)
    else
      var p := l.positions[id];
      var positions := if qty >= p.quantity then l.positions - {id} else l.positions[id := PartlyClosed(p, qty, exit)];
      (l.(positions := positions), Some(Realized(p, qty, exit)))
  }

  function UpdatePrice(l: Ledger, id: string, price: real): Ledger {
    if id !in l.positions then l else l.(positions := l.positions[id := Marked(l.positions[id], price)])
  }

  // -------------------------------------------------------------------------
  // The manager object
  // -------------------------------------------------------------------------

  class Manager {
    const limits: Limits
    var positions: map<string, Position>
    var pending: map<nat, Pending>
    var nextPositionId: nat
    var nextReservationId: nat

    ghost function State(): Ledger
      reads this
    {
      Ledger(positions, pending, nextPositionId, nextReservationId)
    }

    constructor (limits: Limits)
      ensures this.limits == limits && State() == EMPTY
    {
      this.limits := limits;
      positions, pending := map[], map[];
      nextPositionId, nextReservationId := 0, 1;
    }

    method ReserveNotional(symbol: string, qty: real, price: real) returns (res: Reservation)
      modifies this
      ensures (State(), res) == Reserve(old(State()), limits, symbol, qty, price)
    {
      var id := nextReservationId;
      nextReservationId := nextReservationId + 1;
      var total, ofSymbol := Accumulate(PositionExposures(positions), symbol);
      var pendingTotal, pendingOfSymbol := Accumulate(PendingExposures(pending), symbol);
      var count := |positions| + |pending|;
      res := Decide(id, limits, total + pendingTotal, ofSymbol + pendingOfSymbol, count, qty, price);
      if res.approved {
        pending := pending[res.id := Pending(symbol, res.reservedNotional, res.approvedQty)];
      }
    }

    method ConsumeReservation(id: nat)
      modifies this`pending
      ensures State() == Drop(old(State()), id)
    {
      pending := pending - {id};
    }

    method CancelReservation(id: nat)
      modifies this`pending
      ensures State() == if id == 0 then old(State()) else Drop(old(State()), id)
    {
      if id == 0 {
        return;
      }
      pending := pending - {id};
    }

    /** `released` is the reservation the scan over the hash map met first. */
    method OpenPosition(f: Fill) returns (result: Result<string, ErrorCode>, released: Option<nat>)
      modifies this
      ensures result.Ok? ==> ReleaseChoice(old(pending), f.symbol, released)
      ensures (State(), result) == Open(old(State()), limits, f, released)
    {
      var position := Opened(f);
      var total, ofSymbol := Accumulate(PositionExposures(positions), f.symbol);
      var refusal := Refusal(limits, total, ofSymbol, |positions|, position.notional);
      if refusal.Some? {
        return Err(refusal.value), None;
      }
      nextPositionId := nextPositionId + 1;
      var id := PositionId(f.symbol, f.side, nextPositionId);
      positions := positions[id := position];
      released := FindReservation(f.symbol);
      if released.Some? {
        pending := pending - {released.value};
      }
      result := Ok(id);
    }

    method FindReservation(symbol: string) returns (found: Option<nat>)
      ensures ReleaseChoice(pending, symbol, found)
    {
      var rest := pending.Keys;
      while rest != {}
        invariant rest <= pending.Keys
        invariant forall id <- pending.Keys - rest :: pending[id].symbol != symbol
        decreases rest
      {
        var id :| id in rest;
        if pending[id].symbol == symbol {
          return Some(id);
        }
        rest := rest - {id};
      }
      return None;
    }

    method ClosePosition(id: string, closeQty: real, exitPrice: real) returns (realized: Option<real>)
      modifies this`positions
      ensures (State(), realized) == Close(old(State()), id, closeQty, exitPrice)
    {
      if id !in positions {
        return None;
      }
      var p := positions[id];
      realized := Some(Realized(p, closeQty, exitPrice));
      if closeQty >= p.quantity {
        positions := positions - {id};
      } else {
        positions := positions[id := PartlyClosed(p, closeQty, exitPrice)];
      }
    }

    method UpdateMark(id: string, price: real)
      modifies this`positions
      ensures State() == UpdatePrice(old(State()), id, price)
    {
      if id in positions {
        positions := positions[id := Marked(positions[id], price)];
      }
    }
  }
}
