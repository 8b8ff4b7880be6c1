/** Order life cycle fed by two racing sources, a WebSocket stream and a REST poller.
    Each lock section is one step; the completion callback runs later, unlocked. */
module OrderTracker {
  import opened Types

  const NS_PER_MS := 1_000_000

  datatype OrderType = Market | Limit | PostOnly

  datatype OrderStatus = Pending | Open | PartiallyFilled | Filled | Cancelled | Refused

  datatype TrackedOrder = TrackedOrder(
    orderId: string, clientOrderId: string, symbol: string, side: Side, orderType: OrderType,
    requestedQty: real, submitMidPrice: real, filledQty: real, avgFillPrice: real, fees: real,
    status: OrderStatus, submitTime: int, lastUpdateTime: int)

  datatype Report = Report(
    orderId: string, clientOrderId: string, symbol: string, side: Side, orderType: OrderType,
    requestedQty: real, filledQty: real, avgFillPrice: real, submitMidPrice: real,
    slippageBps: real, fees: real, latencyMs: int, submitTime: int, fillTime: int, finalStatus: OrderStatus)

  /** A numeric field of an update: missing, present but unparsable, or a number. */
  datatype Field = Absent | Malformed | Parsed(value: real)

  datatype Update = Update(status: string, filled: Field, avgPrice: Field, fee: Field)

  function ParseStatus(s: string): OrderStatus {
    if s == "open" then Open
    else if s == "closed" then Filled
    else if s == "cancelled" then Cancelled
    else Pending
  }

  predicate IsTerminal(s: OrderStatus) { s.Filled? || s.Cancelled? }

  function SlippageBps(fill: real, mid: real, side: Side): real {
    if mid == 0.0 || fill == 0.0 then 0.0
    else
      var raw := (fill - mid) / mid * 10000.0;
      if side.Sell? then -raw else raw
  }

  function Taken(old_value: real, f: Field): real {
    if f.Parsed? then f.value else old_value
  }

  function Updated(o: TrackedOrder, u: Update, now: int): TrackedOrder {
    o.(status := ParseStatus(u.status), lastUpdateTime := now,
       filledQty := Taken(o.filledQty, u.filled),
       avgFillPrice := Taken(o.avgFillPrice, u.avgPrice),
       fees := Taken(o.fees, u.fee))
  }

  function GenerateReport(o: TrackedOrder, fillTime: int): Report {
    Report(o.orderId, o.clientOrderId, o.symbol, o.side, o.orderType, o.requestedQty, o.filledQty,
           o.avgFillPrice, o.submitMidPrice, SlippageBps(o.avgFillPrice, o.submitMidPrice, o.side), o.fees,
           Quotient(fillTime - o.submitTime, NS_PER_MS), o.submitTime, fillTime, o.status)
  }

  // -------------------------------------------------------------------------
  // All threads together
  // -------------------------------------------------------------------------

  /** `collected` are reports a thread took out of the lock section with a callback to
      call, `fired` those whose callback has run. */
  datatype System = System(
    tracked: map<string, TrackedOrder>, completed: map<string, Report>, callbackSet: bool,
    collected: seq<Report>, fired: seq<Report>)

  datatype Event =
    | Track(id: string, client: string, symbol: string, side: Side, orderType: OrderType, qty: real, mid: real, now: int)
    | StopTracking(id: string)
    | SetCallback(present: bool)
    | WsUpdate(id: string, update: Update, now: int)
    | PollReply(id: string, update: Update, now: int)
    | PollFailed(id: string)
    | InvokeCallback(index: nat)

  function Init(callbackSet: bool): System {
    System(map[], map[], callbackSet, [], [])
  }

  function NewOrder(id: string, client: string, symbol: string, side: Side, orderType: OrderType,
                    qty: real, mid: real, now: int): TrackedOrder {
    TrackedOrder(id, client, symbol, side, orderType, qty, mid, 0.0, 0.0, 0.0, Pending, now, now)
  }

  /** The lock section that both sources run for a status message about `id`. */
  function Deliver(s: System, id: string, u: Update, now: int): System {
    if id !in s.tracked then s
    else
      var order := Updated(s.tracked[id], u, now);
      if IsTerminal(order.status) then
        var report := GenerateReport(order, now);
        s.(tracked := s.tracked - {id}, completed := s.completed[id := report],
           collected := if s.callbackSet then s.collected + [report] else s.collected)
      else s.(tracked := s.tracked[id := order])
  }

  function Step(s: System, e: Event): System {
    match e
    case Track(id, client, symbol, side, orderType, qty, mid, now) =>
      s.(tracked := s.tracked[id := NewOrder(id, client, symbol, side, orderType, qty, mid, now)])
    case StopTracking(id) => s.(tracked := s.tracked - {id})
    case SetCallback(present) => s.(callbackSet := present)
    case WsUpdate(id, u, now) => Deliver(s, id, u, now)
    case PollReply(id, u, now) => Deliver(s, id, u, now)
    case PollFailed(_) => s
    case InvokeCallback(i) =>
      if i < |s.collected| then
        s.(collected := s.collected[..i] + s.collected[i + 1..], fired := s.fired + [s.collected[i]])
      else s
  }

  function Run(s: System, events: seq<Event>): System {
    if events == [] then s else Step(Run(s, events[..|events| - 1]), events[|events| - 1])
  }

  /** How often `id` was handed to trackOrder. */
  function TimesTracked(events: seq<Event>, id: string): nat {
    if events == [] then 0
    else TimesTracked(events[..|events| - 1], id) + (if events[|events| - 1].Track? && events[|events| - 1].id == id then 1 else 0)
  }

  function CountFor(reports: seq<Report>, id: string): nat {
    if reports == [] then 0
    else CountFor(reports[..|reports| - 1], id) + (if reports[|reports| - 1].orderId == id then 1 else 0)
  }

  /** Callbacks run or about to run for `id`. */
  function Calls(s: System, id: string): nat {
    CountFor(s.collected, id) + CountFor(s.fired, id)
  }

  ghost predicate TrackedIsActive(s: System) {
    forall id <- s.tracked :: s.tracked[id].orderId == id && !IsTerminal(s.tracked[id].status)
  }

  lemma {:induction false} CountSplit(a: seq<Report>, b: seq<Report>, id: string)
    ensures CountFor(a + b, id) == CountFor(a, id) + CountFor(b, id)
  {
    if b == [] {
      assert a + b == a;
    } else {
      CountSplit(a, b[..|b| - 1], id);
      assert (a + b)[..|a + b| - 1] == a + b[..|b| - 1];
    }
  }

  lemma {:induction false} CountPositive(reports: seq<Report>, id: string)
    ensures CountFor(reports, id) > 0 <==> exists i :: 0 <= i < |reports| && reports[i].orderId == id
  {
    if reports != [] {
      CountPositive(reports[..|reports| - 1], id);
    }
  }

  lemma CountOne(r: Report, id: string)
    ensures CountFor([r], id) == if r.orderId == id then 1 else 0
  {
    assert [r][..0] == [];
  }

  /** Running a collected callback neither loses nor repeats it. */
  lemma InvokeKeepsCalls(s: System, i: nat, id: string)
    ensures Calls(Step(s, InvokeCallback(i)), id) == Calls(s, id)
  {
    if i < |s.collected| {
      var a, r, b := s.collected[..i], s.collected[i], s.collected[i + 1..];
      assert s.collected == a + ([r] + b);
      CountSplit(a, [r] + b, id);
      CountSplit([r], b, id);
      CountSplit(a, b, id);
      CountSplit(s.fired, [r], id);
    }
  }

  /** A delivery collects at most one callback, and then stops tracking the order. */
  lemma DeliverCalls(s: System, key: string, u: Update, now: int, id: string)
    requires TrackedIsActive(s)
    ensures
      var s' := Deliver(s, key, u, now);
      && TrackedIsActive(s') && s'.callbackSet == s.callbackSet
      && (id != key || id !in s.tracked ==>
            Calls(s', id) == Calls(s, id) && (id in s'.tracked <==> id in s.tracked)
            && (id in s'.completed <==> id in s.completed)
            && (id in s.completed ==> s'.completed[id] == s.completed[id]))
      && (id == key && id in s.tracked ==>
            if id in s'.tracked then
              Calls(s', id) == Calls(s, id) && s'.completed == s.completed
            else
              && Calls(s', id) == Calls(s, id) + (if s.callbackSet then 1 else 0)
              && id in s'.completed && IsTerminal(s'.completed[id].finalStatus)
              && (s.callbackSet ==> s'.collected == s.collected + [s'.completed[id]]))
  {
    if key in s.tracked && IsTerminal(Updated(s.tracked[key], u, now).status) && s.callbackSet {
      var report := GenerateReport(Updated(s.tracked[key], u, now), now);
      CountSplit(s.collected, [report], id);
      CountOne(report, id);
    }
  }

  /** In every run no tracked order is terminal, and an id never has more callbacks
      than times it was tracked, counting the tracking still in progress. */
  lemma {:induction false} CallsNeverExceedTrackings(callbackSet: bool, events: seq<Event>, id: string)
    ensures
      var s := Run(Init(callbackSet), events);
      && TrackedIsActive(s)
      && Calls(s, id) + (if id in s.tracked then 1 else 0) <= TimesTracked(events, id)
  {
    if events != [] {
      var before, e := events[..|events| - 1], events[|events| - 1];
      CallsNeverExceedTrackings(callbackSet, before, id);
      var s := Run(Init(callbackSet), before);
      match e
      case WsUpdate(key, u, now) => DeliverCalls(s, key, u, now, id);
      case PollReply(key, u, now) => DeliverCalls(s, key, u, now, id);
      case InvokeCallback(i) => InvokeKeepsCalls(s, i, id);
      case _ =>
    }
  }

  /** Every callback for `id` carries the stored report. */
  ghost predicate CallsCarryStored(s: System, id: string) {
    && (forall i | 0 <= i < |s.collected| && s.collected[i].orderId == id ::
          id in s.completed && s.collected[i] == s.completed[id])
    && (forall i | 0 <= i < |s.fired| && s.fired[i].orderId == id ::
          id in s.completed && s.fired[i] == s.completed[id])
  }

  lemma DeliverCarriesStored(s: System, key: string, u: Update, now: int, id: string)
    requires TrackedIsActive(s) && CallsCarryStored(s, id)
    requires id in s.tracked ==> Calls(s, id) == 0
    ensures CallsCarryStored(Deliver(s, key, u, now), id)
  {
    DeliverCalls(s, key, u, now, id);
    CountPositive(s.collected, id);
    CountPositive(s.fired, id);
  }

  lemma InvokeCarriesStored(s: System, i: nat, id: string)
    requires CallsCarryStored(s, id)
    ensures CallsCarryStored(Step(s, InvokeCallback(i)), id)
  {
    if i < |s.collected| {
      var s' := Step(s, InvokeCallback(i));
      assert s'.completed == s.completed && s'.fired == s.fired + [s.collected[i]];
      assert s'.collected == s.collected[..i] + s.collected[i + 1..];
    }
  }

  lemma StepCarriesStored(s: System, e: Event, id: string)
    requires TrackedIsActive(s) && CallsCarryStored(s, id)
    requires id in s.tracked ==> Calls(s, id) == 0
    ensures CallsCarryStored(Step(s, e), id)
  {
    match e
    case WsUpdate(key, u, now) => DeliverCarriesStored(s, key, u, now, id);
    case PollReply(key, u, now) => DeliverCarriesStored(s, key, u, now, id);
    case InvokeCallback(i) => InvokeCarriesStored(s, i, id);
    case _ =>
  }

  ghost predicate Both(s: System, id: string) {
    id in s.tracked && id in s.completed
  }

  /** The check to make before trackOrder: the id has no completed report. */
  ghost predicate NeverRetracked(callbackSet: bool, events: seq<Event>, id: string) {
    forall i | 0 <= i < |events| && events[i].Track? && events[i].id == id ::
      id !in Run(Init(callbackSet), events[..i]).completed
  }

  ghost predicate NeverBoth(callbackSet: bool, events: seq<Event>, id: string) {
    forall i | 0 <= i <= |events| :: !Both(Run(Init(callbackSet), events[..i]), id)
  }

  lemma RunSplit(callbackSet: bool, events: seq<Event>, i: nat)
    requires i < |events|
    ensures Run(Init(callbackSet), events[..i + 1]) == Step(Run(Init(callbackSet), events[..i]), events[i])
  {
    assert events[..i + 1][..i] == events[..i];
  }

  lemma PrefixNeverRetracked(callbackSet: bool, events: seq<Event>, id: string, n: nat)
    requires n <= |events| && NeverRetracked(callbackSet, events, id)
    ensures NeverRetracked(callbackSet, events[..n], id)
  {
    forall i | 0 <= i < n && events[..n][i].Track? && events[..n][i].id == id
      ensures id !in Run(Init(callbackSet), events[..n][..i]).completed
    {
      assert events[..n][..i] == events[..i];
    }
  }

  /** Only tracking a completed id makes it both. */
  lemma StepToBoth(s: System, e: Event, id: string)
    requires TrackedIsActive(s) && !Both(s, id)
    ensures Both(Step(s, e), id) <==> e.Track? && e.id == id && id in s.completed
  {
    match e
    case WsUpdate(key, u, now) => DeliverCalls(s, key, u, now, id);
    case PollReply(key, u, now) => DeliverCalls(s, key, u, now, id);
    case _ =>
  }

  /** An id is never tracked and completed at once if and only if it is never tracked
      again after it completed. */
  lemma NeverBothExactlyWhen(callbackSet: bool, events: seq<Event>, id: string)
    ensures NeverBoth(callbackSet, events, id) <==> NeverRetracked(callbackSet, events, id)
  {
    hide Step, Deliver;
    if NeverRetracked(callbackSet, events, id) {
      var i := 0;
      assert !Both(Run(Init(callbackSet), events[..0]), id);
      while i < |events|
        invariant i <= |events| && forall j | 0 <= j <= i :: !Both(Run(Init(callbackSet), events[..j]), id)
      {
        CallsNeverExceedTrackings(callbackSet, events[..i], id);
        RunSplit(callbackSet, events, i);
        StepToBoth(Run(Init(callbackSet), events[..i]), events[i], id);
        i := i + 1;
      }
    }
    if NeverBoth(callbackSet, events, id) {
      forall i | 0 <= i < |events| && events[i].Track? && events[i].id == id
        ensures id !in Run(Init(callbackSet), events[..i]).completed
      {
        CallsNeverExceedTrackings(callbackSet, events[..i], id);
        RunSplit(callbackSet, events, i);
        StepToBoth(Run(Init(callbackSet), events[..i]), events[i], id);
        assert !Both(Run(Init(callbackSet), events[..i]), id) && !Both(Run(Init(callbackSet), events[..i + 1]), id);
      }
    }
  }

  /** What holds of an id never tracked again after its completion: at most one callback,
      with the stored report, and none before the id is completed. */
  ghost predicate ReportedOnce(s: System, id: string) {
    && !Both(s, id)
    && Calls(s, id) <= (if id in s.completed then 1 else 0)
    && CallsCarryStored(s, id)
  }

  lemma StepReportsOnce(s: System, e: Event, id: string)
    requires TrackedIsActive(s) && ReportedOnce(s, id)
    requires e.Track? && e.id == id ==> id !in s.completed
    ensures ReportedOnce(Step(s, e), id)
    ensures s.callbackSet && (id in s.completed ==> Calls(s, id) == 1) && !e.SetCallback? ==>
              Step(s, e).callbackSet && (id in Step(s, e).completed ==> Calls(Step(s, e), id) == 1)
  {
    hide CallsCarryStored;
    StepCarriesStored(s, e, id);
    StepToBoth(s, e, id);
    match e
    case WsUpdate(key, u, now) => DeliverCalls(s, key, u, now, id);
    case PollReply(key, u, now) => DeliverCalls(s, key, u, now, id);
    case InvokeCallback(i) => InvokeKeepsCalls(s, i, id);
    case _ =>
  }

  /** However the two sources interleave, and however often an id is tracked before it
      completes, its callback is called at most once, with the report stored for it;
      with a callback installed throughout, completion is never silent. */
  lemma {:induction false} CompletionReportedOnce(callbackSet: bool, events: seq<Event>, id: string)
    requires NeverRetracked(callbackSet, events, id)
    ensures
      var s := Run(Init(callbackSet), events);
      && ReportedOnce(s, id)
      && (callbackSet && (forall e <- events :: !e.SetCallback?) ==>
            s.callbackSet && (id in s.completed <==> Calls(s, id) == 1))
  {
    hide Step, CallsCarryStored;
    if events == [] {
      NothingReported(callbackSet, id);
    } else {
      var n := |events| - 1;
      PrefixNeverRetracked(callbackSet, events, id, n);
      CompletionReportedOnce(callbackSet, events[..n], id);
      CallsNeverExceedTrackings(callbackSet, events[..n], id);
      StepReportsOnce(Run(Init(callbackSet), events[..n]), events[n], id);
    }
  }

  lemma NothingReported(callbackSet: bool, id: string)
    ensures ReportedOnce(Init(callbackSet), id)
  {
  }

  /** In particular an id handed to trackOrder once. */
  lemma {:induction false} TrackedOnceIsNeverRetracked(callbackSet: bool, events: seq<Event>, id: string)
    requires TimesTracked(events, id) <= 1
    ensures NeverRetracked(callbackSet, events, id)
    ensures TimesTracked(events, id) == 0 ==>
              var s := Run(Init(callbackSet), events); id !in s.tracked && id !in s.completed
  {
    if events != [] {
      var n := |events| - 1;
      TrackedOnceIsNeverRetracked(callbackSet, events[..n], id);
      forall i | 0 <= i < |events| && events[i].Track? && events[i].id == id
        ensures id !in Run(Init(callbackSet), events[..i]).completed
      {
        if i < n {
          assert events[..n][i] == events[i] && events[..n][..i] == events[..i];
        }
      }
    }
  }

  /** Tracking an id again after it completed makes it both at once, and its next
      completion calls back once more. */
  lemma RetrackedIdReportsAgain(s: System, t: Event, u: Event)
    requires TrackedIsActive(s) && s.callbackSet && t.Track? && t.id in s.completed
    requires u.WsUpdate? && u.id == t.id && IsTerminal(ParseStatus(u.update.status))
    ensures Both(Step(s, t), t.id)
    ensures Calls(Step(Step(s, t), u), t.id) == Calls(s, t.id) + 1
  {
    DeliverCalls(Step(s, t), t.id, u.update, u.now, t.id);
  }

  /** From the start: tracked and completed twice over, the id is reported twice. */
  lemma RetrackedIdReportsTwice(t: Event, u: Event)
    requires t.Track? && u.WsUpdate? && u.id == t.id && IsTerminal(ParseStatus(u.update.status))
    ensures Calls(Run(Init(true), [t, u, t, u]), t.id) == 2
  {
    hide CountFor;
    var one, two := Run(Init(true), [t]), Run(Init(true), [t, u]);
    assert [t][..0] == [] && [t, u][..1] == [t] && [t, u, t][..2] == [t, u] && [t, u, t, u][..3] == [t, u, t];
    CallsNeverExceedTrackings(true, [t], t.id);
    CallsNeverExceedTrackings(true, [t, u], t.id);
    DeliverCalls(one, t.id, u.update, u.now, t.id);
    RetrackedIdReportsAgain(two, t, u);
    assert Run(Init(true), [t, u, t, u]) == Step(Step(two, t), u);
  }

  // -------------------------------------------------------------------------
  // The tracker object
  // -------------------------------------------------------------------------

  class Tracker {
    var trackedOrders: map<string, TrackedOrder>
    var completedReports: map<string, Report>
    var callbackSet: bool
    var wsSubscribed: bool
    /** Subscriptions to the private order channel made so far. */
    ghost var subscriptions: nat
    /** Reports handed to the completion callback so far. */
    ghost var fired: seq<Report>

    ghost function State(): System
      reads this
    {
      System(trackedOrders, completedReports, callbackSet, [], fired)
    }

    /** The channel is subscribed to once, with the first order. */
    ghost predicate SubscribedOnce()
      reads this
    {
      subscriptions == if wsSubscribed then 1 else 0
    }

    constructor ()
      ensures State() == Init(false) && !wsSubscribed && SubscribedOnce()
    {
      trackedOrders, completedReports, callbackSet, wsSubscribed := map[], map[], false, false;
      fired, subscriptions := [], 0;
    }

    method SetCompletionCallback(present: bool)
      modifies this`callbackSet
      ensures State() == Step(old(State()), SetCallback(present))
    {
      callbackSet := present;
    }

    method TrackOrder(id: string, symbol: string, side: Side, orderType: OrderType,
                      qty: real, mid: real, client: string, now: int)
      modifies this`trackedOrders, this`wsSubscribed, this`subscriptions
      ensures State() == Step(old(State()), Track(id, client, symbol, side, orderType, qty, mid, now))
      ensures wsSubscribed && subscriptions == old(subscriptions) + (if old(wsSubscribed) then 0 else 1)
      ensures old(SubscribedOnce()) ==> SubscribedOnce()
    {
      if !wsSubscribed {
        subscriptions := subscriptions + 1;
        wsSubscribed := true;
      }
      trackedOrders := trackedOrders[id := NewOrder(id, client, symbol, side, orderType, qty, mid, now)];
    }

    method StopTrackingOrder(id: string)
      modifies this`trackedOrders
      ensures State() == Step(old(State()), StopTracking(id))
    {
      trackedOrders := trackedOrders - {id};
    }

    /** A status message without an id is ignored. */
    method ProcessOrderUpdate(id: Option<string>, u: Update, now: int)
      modifies this`trackedOrders, this`completedReports, this`fired
      ensures State() ==
        match id
        case None => old(State())
        case Some(key) => Step(Step(old(State()), WsUpdate(key, u, now)), InvokeCallback(0))
    {
      if id.Some? {
        UpdateTracked(id.value, u, now);
      }
    }

    /** `reply` is None when the request failed. */
    method PollOrderStatus(id: string, reply: Option<Update>, now: int) returns (status: Option<OrderStatus>)
      modifies this`trackedOrders, this`completedReports, this`fired
      ensures State() ==
        match reply
        case None => old(State())
        case Some(u) => Step(Step(old(State()), PollReply(id, u, now)), InvokeCallback(0))
      ensures status == if reply.None? then None else Some(ParseStatus(reply.value.status))
    {
      if reply.None? {
        return None;
      }
      UpdateTracked(id, reply.value, now);
      status := Some(ParseStatus(reply.value.status));
    }

    method UpdateTracked(id: string, u: Update, now: int)
      modifies this`trackedOrders, this`completedReports, this`fired
      ensures State() == Step(Deliver(old(State()), id, u, now), InvokeCallback(0))
    {
      var completed: Option<Report> := None;
      if id in trackedOrders {
        var order := Updated(trackedOrders[id], u, now);
        trackedOrders := trackedOrders[id := order];
        if IsTerminal(order.status) {
          var report := GenerateReport(order, now);
          completed := Some(report);
          completedReports := completedReports[id := report];
          trackedOrders := trackedOrders - {id};
        }
      }
      if completed.Some? && callbackSet {
        fired := fired + [completed.value];
      }
    }

    /** The tracked orders that are not terminal. In a reachable state the filter drops
        nothing: every tracked order is listed, once. */
    method ActiveOrders() returns (result: seq<TrackedOrder>)
      ensures forall o :: o in result <==>
                !IsTerminal(o.status) && exists id :: id in trackedOrders && trackedOrders[id] == o
      ensures TrackedIsActive(State()) ==> |result| == |trackedOrders|
    {
      result := [];
      var rest := trackedOrders.Keys;
      while rest != {}
        invariant rest <= trackedOrders.Keys
        invariant TrackedIsActive(State()) ==> |result| + |rest| == |trackedOrders.Keys|
        invariant forall id | id in trackedOrders && id !in rest && !IsTerminal(trackedOrders[id].status) ::
                    trackedOrders[id] in result
        invariant forall o <- result ::
                    !IsTerminal(o.status) && exists id :: id in trackedOrders && trackedOrders[id] == o
        decreases rest
      {
        var id :| id in rest;
        var order := trackedOrders[id];
        if !IsTerminal(order.status) {
          result := result + [order];
        }
        rest := rest - {id};
      }
    }
  }
}
