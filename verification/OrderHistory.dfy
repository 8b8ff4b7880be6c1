/** An order's life told from the messages alone: which one completes it, and what its
    report then says. */
module OrderHistory {
  import opened Types
  import opened OrderTracker

  // -------------------------------------------------------------------------
  // The history of one order
  // -------------------------------------------------------------------------

  /** A status message about the order, from either source. */
  predicate IsMessage(e: Event, id: string) {
    (e.WsUpdate? || e.PollReply?) && e.id == id
  }

  predicate IsTrack(e: Event, id: string) { e.Track? && e.id == id }

  /** The two words that end an order. */
  predicate EndsOrder(status: string) { status == "closed" || status == "cancelled" }

  /** Tracked, and since then neither dropped nor ended by a message. */
  predicate InProgress(events: seq<Event>, id: string) {
    if events == [] then false
    else
      var before, e := events[..|events| - 1], events[|events| - 1];
      if IsTrack(e, id) then true
      else if e.StopTracking? && e.id == id then false
      else if IsMessage(e, id) && EndsOrder(e.update.status) then false
      else InProgress(before, id)
  }

  datatype Which = FilledTotal | AveragePrice | Fee

  function FieldOf(u: Update, which: Which): Field {
    match which
    case FilledTotal => u.filled
    case AveragePrice => u.avgPrice
    case Fee => u.fee
  }

  /** The last number sent for a field since the order was tracked, 0 if none. */
  function LastParsed(events: seq<Event>, id: string, which: Which): real {
    if events == [] then 0.0
    else
      var before, e := events[..|events| - 1], events[|events| - 1];
      if IsTrack(e, id) then 0.0
      else if IsMessage(e, id) && FieldOf(e.update, which).Parsed? then FieldOf(e.update, which).value
      else LastParsed(before, id, which)
  }

  /** The last status word since the order was tracked. */
  function LastWord(events: seq<Event>, id: string): Option<string> {
    if events == [] then None
    else
      var before, e := events[..|events| - 1], events[|events| - 1];
      if IsTrack(e, id) then None
      else if IsMessage(e, id) then Some(e.update.status)
      else LastWord(before, id)
  }

  /** When the order was last heard of: its last message, or the start of the tracking. */
  function LastHeard(events: seq<Event>, id: string): int {
    if events == [] then 0
    else
      var e := events[|events| - 1];
      if IsTrack(e, id) || IsMessage(e, id) then e.now else LastHeard(events[..|events| - 1], id)
  }

  /** The call that started the tracking. */
  function LastTrack(events: seq<Event>, id: string): (t: Option<Event>)
    ensures t.Some? ==> IsTrack(t.value, id)
  {
    if events == [] then None
    else if IsTrack(events[|events| - 1], id) then Some(events[|events| - 1])
    else LastTrack(events[..|events| - 1], id)
  }

  // -------------------------------------------------------------------------
  // The tracker follows it
  // -------------------------------------------------------------------------

  /** The order as its history describes it. */
  ghost predicate Follows(o: TrackedOrder, events: seq<Event>, id: string) {
    && o.orderId == id && LastTrack(events, id).Some?
    && o.filledQty == LastParsed(events, id, FilledTotal)
    && o.avgFillPrice == LastParsed(events, id, AveragePrice)
    && o.fees == LastParsed(events, id, Fee)
    && o.lastUpdateTime == LastHeard(events, id)
    && o.status == (if LastWord(events, id) == Some("open") then Open else Pending)
    && var t := LastTrack(events, id).value;
       && o.clientOrderId == t.client && o.symbol == t.symbol && o.side == t.side && o.orderType == t.orderType
       && o.requestedQty == t.qty && o.submitMidPrice == t.mid && o.submitTime == t.now
  }

  /** What one message does to a tracked order: only the two ending words end it, and any
      other leaves it Open for "open" and Pending otherwise. */
  lemma MessageEffect(s: System, id: string, u: Update, now: int)
    requires id in s.tracked
    ensures
      var s', o := Deliver(s, id, u, now), s.tracked[id];
      && (id !in s'.tracked <==> EndsOrder(u.status))
      && (id in s'.tracked ==>
            && s'.completed == s.completed && s'.collected == s.collected
            && s'.tracked[id] == o.(status := if u.status == "open" then Open else Pending, lastUpdateTime := now,
                 filledQty := if u.filled.Parsed? then u.filled.value else o.filledQty,
                 avgFillPrice := if u.avgPrice.Parsed? then u.avgPrice.value else o.avgFillPrice,
                 fees := if u.fee.Parsed? then u.fee.value else o.fees))
  {
  }

  lemma StepFollows(s: System, events: seq<Event>, e: Event, id: string)
    requires id in s.tracked <==> InProgress(events, id)
    requires id in s.tracked ==> Follows(s.tracked[id], events, id)
    ensures id in Step(s, e).tracked <==> InProgress(events + [e], id)
    ensures id in Step(s, e).tracked ==> Follows(Step(s, e).tracked[id], events + [e], id)
  {
    assert (events + [e])[..|events|] == events;
    if IsMessage(e, id) && id in s.tracked {
      MessageEffect(s, id, e.update, e.now);
    }
  }

  /** In every interleaving: an order is tracked exactly while its history has it in
      progress, so a message makes it leave if and only if it says "closed" or
      "cancelled"; and while tracked it is what its history describes. */
  lemma {:induction false} TrackedExactlyWhenInProgress(callbackSet: bool, events: seq<Event>, id: string)
    ensures
      var s := Run(Init(callbackSet), events);
      && (id in s.tracked <==> InProgress(events, id))
      && (id in s.tracked ==> Follows(s.tracked[id], events, id))
  {
    hide Step, InProgress, Follows;
    if events == [] {
      NothingInProgress(id);
    } else {
      var before := events[..|events| - 1];
      TrackedExactlyWhenInProgress(callbackSet, before, id);
      StepFollows(Run(Init(callbackSet), before), before, events[|events| - 1], id);
      assert before + [events[|events| - 1]] == events;
    }
  }

  lemma NothingInProgress(id: string)
    ensures !InProgress([], id)
  {
  }

  /** Basis points by which the fill was worse than the mid price at submission: scaled
      back and turned by the side, they restore the fill. */
  ghost predicate IsSlippage(bps: real, fill: real, mid: real, side: Side) {
    if mid == 0.0 || fill == 0.0 then bps == 0.0
    else fill == mid * (1.0 + (if side.Buy? then bps else -bps) / 10000.0)
  }

  lemma SlippageRestoresFill(fill: real, mid: real, side: Side)
    ensures IsSlippage(SlippageBps(fill, mid, side), fill, mid, side)
  {
    if mid != 0.0 && fill != 0.0 {
      var share := (fill - mid) / mid;
      assert share * mid == fill - mid;
      var bps := SlippageBps(fill, mid, side);
      assert (if side.Buy? then bps else -bps) / 10000.0 == share;
      assert mid * (1.0 + share) == mid + share * mid;
    }
  }

  /** A report as the history up to and including the ending message describes it. */
  ghost predicate Reports(r: Report, events: seq<Event>, id: string, status: string, now: int) {
    && r.orderId == id && LastTrack(events, id).Some?
    && (r.finalStatus == if status == "closed" then Filled else Cancelled)
    && var t := LastTrack(events, id).value;
       && r.clientOrderId == t.client && r.symbol == t.symbol && r.side == t.side && r.orderType == t.orderType
       && r.requestedQty == t.qty && r.submitMidPrice == t.mid && r.submitTime == t.now && r.fillTime == now
       && r.filledQty == LastParsed(events, id, FilledTotal)
       && r.avgFillPrice == LastParsed(events, id, AveragePrice)
       && r.fees == LastParsed(events, id, Fee)
       && IsSlippage(r.slippageBps, r.avgFillPrice, t.mid, t.side)
       && IsQuotient(r.latencyMs, now - t.now, 1_000_000)
  }

  lemma ReportOfMessage(s: System, events: seq<Event>, e: Event, id: string)
    requires id in s.tracked && Follows(s.tracked[id], events, id)
    requires IsMessage(e, id) && EndsOrder(e.update.status)
    ensures
      var s' := Step(s, e);
      && id !in s'.tracked && id in s'.completed
      && Reports(s'.completed[id], events + [e], id, e.update.status, e.now)
      && s'.collected == if s.callbackSet then s.collected + [s'.completed[id]] else s.collected
  {
    assert (events + [e])[..|events|] == events;
    var o := Updated(s.tracked[id], e.update, e.now);
    SlippageRestoresFill(o.avgFillPrice, o.submitMidPrice, o.side);
    QuotientCutsOff(e.now - o.submitTime, NS_PER_MS);
  }

  /** In every interleaving: an ending message about an order in progress stores, and hands
      to the callback if there is one, the report that the history describes; and nothing
      else ever stores a report for the id. */
  lemma CompletedExactlyBy(callbackSet: bool, events: seq<Event>, e: Event, id: string)
    ensures
      var s, s' := Run(Init(callbackSet), events), Run(Init(callbackSet), events + [e]);
      if InProgress(events, id) && IsMessage(e, id) && EndsOrder(e.update.status) then
        && id in s'.completed && Reports(s'.completed[id], events + [e], id, e.update.status, e.now)
        && s'.collected == if s.callbackSet then s.collected + [s'.completed[id]] else s.collected
      else
        && (id in s'.completed <==> id in s.completed)
        && (id in s.completed ==> s'.completed[id] == s.completed[id])
  {
    hide InProgress, Follows, Reports;
    assert (events + [e])[..|events|] == events;
    var s := Run(Init(callbackSet), events);
    TrackedExactlyWhenInProgress(callbackSet, events, id);
    if id in s.tracked && IsMessage(e, id) {
      if EndsOrder(e.update.status) {
        ReportOfMessage(s, events, e, id);
      } else {
        MessageEffect(s, id, e.update, e.now);
      }
    }
  }
}
