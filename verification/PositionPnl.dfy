/** Profit and loss of one position over any sequence of price marks and closes. */
module PositionPnl {
  import opened Types
  import opened PositionManager

  datatype Action = Mark(price: real) | CloseAt(qty: real, exit: real)

  /** A position and what has been realized on it; no position once it is fully closed. */
  datatype Account = Account(position: Option<Position>, realized: real)

  function Act(a: Account, action: Action): Account {
    match a.position
    case None => a
    case Some(p) =>
      match action
      case Mark(price) => a.(position := Some(Marked(p, price)))
      case CloseAt(qty, exit) =>
        Account(if qty >= p.quantity then None else Some(PartlyClosed(p, qty, exit)),
                a.realized + Realized(p, qty, exit))
  }

  function ActAll(a: Account, actions: seq<Action>): Account
    decreases |actions|
  {
    if actions == [] then a else ActAll(Act(a, actions[0]), actions[1..])
  }

  /** Value of everything sold: the closed quantities at their exit prices. */
  function Proceeds(a: Account, actions: seq<Action>): real
    decreases |actions|
  {
    if actions == [] || a.position.None? then 0.0
    else
      (match actions[0]
       case Mark(_) => 0.0
       case CloseAt(qty, exit) => MinR(qty, a.position.value.quantity) * exit)
      + Proceeds(Act(a, actions[0]), actions[1..])
  }

  /** Realized so far plus unrealized at the current mark. */
  function Value(a: Account): real {
    a.realized + (if a.position.Some? then a.position.value.unrealizedPnl else 0.0)
  }

  /** What is left, valued at the current mark. */
  function Holding(a: Account): real {
    if a.position.Some? then a.position.value.quantity * a.position.value.currentPrice else 0.0
  }

  /** Signed profit per unit of price times quantity. */
  function Factor(p: Position): real {
    (if p.side.Buy? then 1.0 else -1.0) * (p.quanto * p.leverage)
  }

  /** Unrealized profit and margin are the ones the present quantity and mark call for. */
  ghost predicate Consistent(p: Position) {
    && p.unrealizedPnl == Factor(p) * (p.quantity * p.currentPrice - p.quantity * p.entryPrice)
    && p.marginUsed == Margin(p.marketType, p.quantity, p.entryPrice, p.quanto, p.leverage)
  }

  /** Nothing but quantity, mark and what follows from them ever changes. */
  ghost predicate SameTerms(p: Position, q: Position) {
    && p.side == q.side && p.entryPrice == q.entryPrice && p.symbol == q.symbol
    && p.marketType == q.marketType && p.leverage == q.leverage && p.quanto == q.quanto
  }

  lemma UnrealizedIs(side: Side, entry: real, current: real, qty: real, leverage: real, quanto: real)
    ensures UnrealizedPnl(side, entry, current, qty, leverage, quanto) ==
            (if side.Buy? then 1.0 else -1.0) * (quanto * leverage) * (qty * current - qty * entry)
  {
    var c := quanto * leverage;
    assert (current - entry) * qty * quanto * leverage == c * (qty * current - qty * entry);
    assert (entry - current) * qty * quanto * leverage == -c * (qty * current - qty * entry);
  }

  lemma RealizedIs(p: Position, qty: real, exit: real)
    ensures Realized(p, qty, exit) ==
            Factor(p) * (MinR(qty, p.quantity) * exit - MinR(qty, p.quantity) * p.entryPrice)
  {
    UnrealizedIs(p.side, p.entryPrice, exit, MinR(qty, p.quantity), p.leverage, p.quanto);
    var direction, c := if p.side.Buy? then 1.0 else -1.0, MinR(qty, p.quantity);
    assert direction * (exit - p.entryPrice) * c * p.quanto * p.leverage
        == UnrealizedPnl(p.side, p.entryPrice, exit, c, p.leverage, p.quanto);
  }

  ghost predicate JustOpened(p: Position) {
    Consistent(p) && p.unrealizedPnl == 0.0 && p.currentPrice == p.entryPrice
  }

  lemma OpenedIsJustOpened(f: Fill)
    ensures JustOpened(Opened(f)) && Opened(f).quantity == f.qty && Opened(f).entryPrice == f.entryPrice
  {
    var p := Opened(f);
    assert p.quantity * p.currentPrice - p.quantity * p.entryPrice == 0.0;
  }

  lemma MarkKeepsConsistent(p: Position, price: real)
    requires Consistent(p)
    ensures Consistent(Marked(p, price)) && SameTerms(p, Marked(p, price))
  {
    UnrealizedIs(p.side, p.entryPrice, price, p.quantity, p.leverage, p.quanto);
  }

  lemma PartlyClosedIsConsistent(p: Position, qty: real, exit: real)
    requires Consistent(p)
    ensures Consistent(PartlyClosed(p, qty, exit)) && SameTerms(p, PartlyClosed(p, qty, exit))
    ensures PartlyClosed(p, qty, exit).quantity == p.quantity - qty
    ensures PartlyClosed(p, qty, exit).currentPrice == exit
  {
    UnrealizedIs(p.side, p.entryPrice, exit, p.quantity - qty, p.leverage, p.quanto);
  }

  /** Value moved from v to v' by c per unit sold or gained on the holding. */
  ghost predicate Gains(c: real, v: real, v': real, sold: real, h: real, h': real) {
    v' == v + c * (sold + h' - h)
  }

  lemma GainsChain(c: real, v: real, v1: real, v2: real, s1: real, s2: real, h: real, h1: real, h2: real)
    requires Gains(c, v, v1, s1, h, h1) && Gains(c, v1, v2, s2, h1, h2)
    ensures Gains(c, v, v2, s1 + s2, h, h2)
  {
    assert c * (s1 + h1 - h) + c * (s2 + h2 - h1) == c * ((s1 + s2) + h2 - h);
  }

  lemma GainsFromZero(c: real, v: real, sold: real, h: real, h': real)
    requires Gains(c, 0.0, v, sold, h, h')
    ensures v == c * (sold + h' - h)
  {
  }

  lemma GainsNothing(c: real, v: real, h: real)
    ensures Gains(c, v, v, 0.0, h, h)
  {
  }

  lemma SameFactor(p: Position, q: Position)
    requires SameTerms(p, q)
    ensures Factor(p) == Factor(q)
  {
  }

  lemma MarkValue(a: Account, price: real)
    requires a.position.Some? && Consistent(a.position.value)
    ensures
      var p, b := a.position.value, Act(a, Mark(price));
      && b.position.Some? && Consistent(b.position.value) && SameTerms(p, b.position.value)
      && Gains(Factor(p), Value(a), Value(b), 0.0, Holding(a), Holding(b))
  {
    var p := a.position.value;
    MarkKeepsConsistent(p, price);
    Distribute(Factor(p), p.quantity * price, p.quantity * p.currentPrice, p.quantity * p.entryPrice, 0.0, 0.0);
  }

  lemma FullCloseValue(a: Account, qty: real, exit: real)
    requires a.position.Some? && Consistent(a.position.value) && qty >= a.position.value.quantity
    ensures
      var p, b := a.position.value, Act(a, CloseAt(qty, exit));
      b.position.None? && Gains(Factor(p), Value(a), Value(b), MinR(qty, p.quantity) * exit, Holding(a), Holding(b))
  {
    var p := a.position.value;
    RealizedIs(p, qty, exit);
    hide Realized;
    Distribute(Factor(p), 0.0, p.quantity * p.currentPrice, p.quantity * p.entryPrice, p.quantity * exit, p.quantity * p.entryPrice);
  }

  lemma PartCloseValue(a: Account, qty: real, exit: real)
    requires a.position.Some? && Consistent(a.position.value) && qty < a.position.value.quantity
    ensures
      var p, b := a.position.value, Act(a, CloseAt(qty, exit));
      && b.position.Some? && Consistent(b.position.value) && SameTerms(p, b.position.value)
      && Gains(Factor(p), Value(a), Value(b), MinR(qty, p.quantity) * exit, Holding(a), Holding(b))
  {
    var p := a.position.value;
    RealizedIs(p, qty, exit);
    PartlyClosedIsConsistent(p, qty, exit);
    hide Realized, PartlyClosed;
    var left := p.quantity - qty;
    assert left * p.entryPrice == p.quantity * p.entryPrice - qty * p.entryPrice;
    Distribute(Factor(p), left * exit, p.quantity * p.currentPrice, p.quantity * p.entryPrice, qty * exit, qty * p.entryPrice);
  }

  /** Change of value in one action: the holding's change plus what was sold. */
  lemma ActValue(a: Account, action: Action)
    requires a.position.Some? && Consistent(a.position.value)
    ensures
      var p, b := a.position.value, Act(a, action);
      var sold := if action.CloseAt? then MinR(action.qty, p.quantity) * action.exit else 0.0;
      && (b.position.Some? ==> Consistent(b.position.value) && SameTerms(p, b.position.value))
      && Gains(Factor(p), Value(a), Value(b), sold, Holding(a), Holding(b))
  {
    var p, b := a.position.value, Act(a, action);
    match action
    case Mark(price) => MarkValue(a, price);
    case CloseAt(qty, exit) => if qty >= p.quantity { FullCloseValue(a, qty, exit); } else { PartCloseValue(a, qty, exit); }
  }

  lemma Distribute(c: real, h': real, h: real, cost: real, sold: real, soldCost: real)
    ensures c * (h' - (cost - soldCost)) + c * (sold - soldCost) == c * (h - cost) + c * (sold + h' - h)
  {
  }

  /** The accounting identity for any marks and closes, from any consistent state. */
  lemma {:induction false} ValueIdentity(a: Account, actions: seq<Action>)
    requires a.position.Some? && Consistent(a.position.value)
    ensures
      var p, b := a.position.value, ActAll(a, actions);
      && (b.position.Some? ==> Consistent(b.position.value) && SameTerms(p, b.position.value))
      && Gains(Factor(p), Value(a), Value(b), Proceeds(a, actions), Holding(a), Holding(b))
    decreases |actions|
  {
    hide Act, Value, Holding, Factor, Gains, Consistent;
    if actions != [] {
      var p, next := a.position.value, Act(a, actions[0]);
      ActValue(a, actions[0]);
      var sold := if actions[0].CloseAt? then MinR(actions[0].qty, p.quantity) * actions[0].exit else 0.0;
      var rest := Proceeds(next, actions[1..]);
      var b := ActAll(next, actions[1..]);
      if next.position.Some? {
        ValueIdentity(next, actions[1..]);
        SameFactor(p, next.position.value);
      } else {
        ClosedStaysClosed(next, actions[1..]);
      }
      GainsChain(Factor(p), Value(a), Value(next), Value(b), sold, rest, Holding(a), Holding(next), Holding(b));
      assert Proceeds(a, actions) == sold + rest;
    } else {
      GainsNothing(Factor(a.position.value), Value(a), Holding(a));
    }
  }

  lemma {:induction false} ClosedStaysClosed(a: Account, actions: seq<Action>)
    requires a.position.None?
    ensures ActAll(a, actions) == a && Proceeds(a, actions) == 0.0
    decreases |actions|
  {
    if actions != [] {
      ClosedStaysClosed(a, actions[1..]);
    }
  }

  /** From the opening on, realized plus unrealized profit equals direction * quanto *
      leverage times (what was sold at its exit prices, plus what is left at the mark,
      less the original cost), and the margin is always that of what is left. */
  lemma ProfitFromOpening(p: Position, actions: seq<Action>)
    requires JustOpened(p)
    ensures
      var a, b := Account(Some(p), 0.0), ActAll(Account(Some(p), 0.0), actions);
      && Value(b) == Factor(p) * (Proceeds(a, actions) + Holding(b) - p.quantity * p.entryPrice)
      && (b.position.Some? ==>
            b.position.value.marginUsed == Margin(p.marketType, b.position.value.quantity, p.entryPrice, p.quanto, p.leverage))
  {
    hide ActAll, Act, Proceeds, Value, Holding, Factor, Consistent, JustOpened, SameTerms, Gains;
    var a, b := Account(Some(p), 0.0), ActAll(Account(Some(p), 0.0), actions);
    OpeningValue(p);
    ValueIdentity(a, actions);
    GainsFromZero(Factor(p), Value(b), Proceeds(a, actions), p.quantity * p.entryPrice, Holding(b));
    RestIsConsistent(p, b);
  }

  lemma OpeningValue(p: Position)
    requires JustOpened(p)
    ensures Consistent(p) && Value(Account(Some(p), 0.0)) == 0.0
    ensures Holding(Account(Some(p), 0.0)) == p.quantity * p.entryPrice
  {
  }

  lemma RestIsConsistent(p: Position, b: Account)
    requires b.position.Some? ==> Consistent(b.position.value) && SameTerms(p, b.position.value)
    ensures b.position.Some? ==>
              b.position.value.marginUsed == Margin(p.marketType, b.position.value.quantity, p.entryPrice, p.quanto, p.leverage)
  {
  }

  /** Closing at the current mark, partly or fully, moves profit from unrealized to
      realized and changes the sum by nothing. */
  lemma CloseAtMarkIsNeutral(a: Account, qty: real)
    requires a.position.Some? && Consistent(a.position.value)
    ensures Value(Act(a, CloseAt(qty, a.position.value.currentPrice))) == Value(a)
  {
    var p := a.position.value;
    ActValue(a, CloseAt(qty, p.currentPrice));
    assert (p.quantity - qty) * p.currentPrice == p.quantity * p.currentPrice - qty * p.currentPrice;
  }

  /** The manager's two calls act on a stored position exactly as the account does. */
  lemma LedgerFollowsAccount(l: Ledger, id: string, action: Action)
    requires id in l.positions
    ensures
      var b := Act(Account(Some(l.positions[id]), 0.0), action);
      match action
      case Mark(price) => UpdatePrice(l, id, price) == l.(positions := l.positions[id := b.position.value])
      case CloseAt(qty, exit) =>
        var (l', realized) := Close(l, id, qty, exit);
        && realized == Some(b.realized)
        && l' == l.(positions := if b.position.Some? then l.positions[id := b.position.value] else l.positions - {id})
  {
  }

  // -------------------------------------------------------------------------
  // In terms of the fill
  // -------------------------------------------------------------------------

  /** The price of the last mark or close, or the entry price. */
  function LastPrice(entry: real, actions: seq<Action>): real {
    if actions == [] then entry
    else
      match actions[|actions| - 1]
      case Mark(price) => price
      case CloseAt(_, exit) => exit
  }

  /** Everything the closes asked for. */
  function Asked(actions: seq<Action>): real {
    if actions == [] then 0.0
    else
      Asked(actions[..|actions| - 1]) +
      match actions[|actions| - 1]
      case Mark(_) => 0.0
      case CloseAt(qty, _) => qty
  }

  /** What a position that is still open looks like after some actions. */
  ghost predicate Describes(p: Position, f: Fill, actions: seq<Action>) {
    && p.symbol == f.symbol && p.side == f.side && p.entryPrice == f.entryPrice && p.strategyId == f.strategyId
    && p.marketType == f.marketType && p.leverage == f.leverage && p.quanto == f.quanto
    && p.quantity == f.qty - Asked(actions)
    && p.currentPrice == LastPrice(f.entryPrice, actions)
    && p.notional == AbsR(p.quantity * p.currentPrice * p.quanto)
    && p.liquidationPrice == LiquidationPrice(f)
  }

  lemma {:induction false} ActAllSplit(a: Account, before: seq<Action>, last: Action)
    ensures ActAll(a, before + [last]) == Act(ActAll(a, before), last)
    decreases |before|
  {
    hide Act;
    if before == [] {
      assert before + [last] == [last];
      assert ActAll(Act(a, last), []) == Act(a, last);
    } else {
      assert (before + [last])[1..] == before[1..] + [last];
      ActAllSplit(Act(a, before[0]), before[1..], last);
    }
  }

  lemma ActDescribes(p: Position, f: Fill, before: seq<Action>, last: Action)
    requires Describes(p, f, before)
    ensures
      var b := Act(Account(Some(p), 0.0), last);
      b.position.Some? ==> Describes(b.position.value, f, before + [last])
  {
    assert (before + [last])[..|before|] == before;
  }

  lemma OpenedDescribes(f: Fill)
    requires f.qty * f.entryPrice * f.quanto >= 0.0
    ensures Describes(Opened(f), f, [])
  {
  }

  /** Over any marks and closes, while it is open: quantity is what the closes left, mark
      the last price seen, and notional exposure the size of quantity * mark * quanto. */
  lemma {:induction false} ExposureFollowsMark(f: Fill, actions: seq<Action>)
    requires f.qty * f.entryPrice * f.quanto >= 0.0
    ensures
      var b := ActAll(Account(Some(Opened(f)), 0.0), actions);
      b.position.Some? ==> Describes(b.position.value, f, actions)
  {
    hide Describes, Act, Opened;
    if actions == [] {
      OpenedDescribes(f);
    } else {
      var before, last := actions[..|actions| - 1], actions[|actions| - 1];
      ExposureFollowsMark(f, before);
      assert before + [last] == actions;
      ActAllSplit(Account(Some(Opened(f)), 0.0), before, last);
      var a := ActAll(Account(Some(Opened(f)), 0.0), before);
      OpenStaysOpen(a, last);
      if a.position.Some? {
        ActDescribes(a.position.value, f, before, last);
        RealizedApart(a, last);
      }
    }
  }

  lemma OpenStaysOpen(a: Account, last: Action)
    ensures Act(a, last).position.Some? ==> a.position.Some?
  {
  }

  lemma RealizedApart(a: Account, last: Action)
    ensures Act(a, last).position == Act(Account(a.position, 0.0), last).position
  {
  }

  /** The margin of a position, times its leverage, is quantity * entry * quanto. */
  lemma MarginIsShare(marketType: MarketType, qty: real, entry: real, quanto: real, leverage: real)
    ensures
      var margin := Margin(marketType, qty, entry, quanto, leverage);
      if marketType.Futures? && leverage > 0.0 then margin * leverage == qty * entry * quanto else margin == 0.0
  {
  }

  /** At the liquidation price the price has moved against the position by its margin less
      its maintenance share. */
  lemma LiquidationLeavesMaintenance(f: Fill)
    requires f.marketType.Futures? && f.leverage > 1.0
    ensures
      var p := Opened(f);
      var against := if f.side.Buy? then f.entryPrice - p.liquidationPrice else p.liquidationPrice - f.entryPrice;
      f.qty * f.quanto * against == p.marginUsed - f.maintenanceRate * (f.qty * f.entryPrice * f.quanto)
  {
    var share, n := 1.0 / f.leverage, f.qty * f.quanto;
    assert share * f.leverage == 1.0;
    var against := f.entryPrice * (share - f.maintenanceRate);
    assert f.entryPrice * (1.0 - share + f.maintenanceRate) == f.entryPrice - against;
    assert f.entryPrice * (1.0 + share - f.maintenanceRate) == f.entryPrice + against;
    ShareOf(f.qty * f.entryPrice * f.quanto, f.leverage, share);
    assert n * against == (n * f.entryPrice) * (share - f.maintenanceRate);
    assert n * f.entryPrice == f.qty * f.entryPrice * f.quanto;
    Spread(f.qty * f.entryPrice * f.quanto, share, f.maintenanceRate);
  }

  lemma ShareOf(n: real, leverage: real, share: real)
    requires leverage > 0.0 && share * leverage == 1.0
    ensures n / leverage == n * share
  {
    assert (n * share) * leverage == n * (share * leverage);
    assert (n / leverage) * leverage == n;
  }

  lemma Spread(n: real, a: real, b: real)
    ensures n * (a - b) == n * a - b * n
  {
  }
}
