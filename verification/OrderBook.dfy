/** Order books rebuilt from snapshots and deltas: last writer wins, stale deltas are
    dropped, and the best levels are a prefix of the sorted book. */
module OrderBook {
  import opened Types

  /** One [price, quantity] entry of a message, or one that does not parse. */
  datatype Level = BadLevel | Level(price: real, qty: real)

  /** A message body. `complete` says that the id and both side fields are present;
      a side that is not an array is None. */
  datatype Message = Message(complete: bool, id: nat, bids: Option<seq<Level>>, asks: Option<seq<Level>>, time: Option<int>)

  datatype Book = Book(bids: map<real, real>, asks: map<real, real>, sequenceId: nat, timestamp: int)

  datatype Market = Market(books: map<string, Book>, lastSequence: map<string, nat>)

  datatype Feed = Snapshot(symbol: string, body: Message) | Delta(symbol: string, body: Message)

  function Levels(side: Option<seq<Level>>): seq<Level> {
    if side.Some? then side.value else []
  }

  // -------------------------------------------------------------------------
  // Updating one side
  // -------------------------------------------------------------------------

  /** A snapshot keeps positive quantities only. */
  function ParseStep(side: map<real, real>, l: Level): map<real, real> {
    if l.Level? && l.qty > 0.0 then side[l.price := l.qty] else side
  }

  function ParseLevels(levels: seq<Level>): map<real, real> {
    if levels == [] then map[] else ParseStep(ParseLevels(levels[..|levels| - 1]), levels[|levels| - 1])
  }

  /** A delta removes at quantity 0 and otherwise writes. */
  function DeltaStep(side: map<real, real>, l: Level): map<real, real> {
    if l.BadLevel? then side
    else if l.qty == 0.0 then side - {l.price}
    else side[l.price := l.qty]
  }

  function ApplyLevels(side: map<real, real>, levels: seq<Level>): map<real, real> {
    if levels == [] then side else DeltaStep(ApplyLevels(side, levels[..|levels| - 1]), levels[|levels| - 1])
  }

  // -------------------------------------------------------------------------
  // Updating the market
  // -------------------------------------------------------------------------

  function ApplySnapshot(m: Market, symbol: string, body: Message): Market {
    if !body.complete then m
    else
      var time := if body.time.Some? then body.time.value else 0;
      var book := Book(ParseLevels(Levels(body.bids)), ParseLevels(Levels(body.asks)), body.id, time);
      Market(m.books[symbol := book], m.lastSequence[symbol := body.id])
  }

  predicate Stale(last: nat, id: nat) {
    id <= last && last != 0
  }

  function ApplyDelta(m: Market, symbol: string, body: Message): Market {
    if !body.complete || symbol !in m.books then m
    else
      var last := if symbol in m.lastSequence then m.lastSequence[symbol] else 0;
      if Stale(last, body.id) then m
      else
        var b := m.books[symbol];
        var book := Book(ApplyLevels(b.bids, Levels(body.bids)), ApplyLevels(b.asks, Levels(body.asks)), body.id,
                         if body.time.Some? then body.time.value else b.timestamp);
        Market(m.books[symbol := book], m.lastSequence[symbol := body.id])
  }

  function Step(m: Market, e: Feed): Market {
    match e
    case Snapshot(symbol, body) => ApplySnapshot(m, symbol, body)
    case Delta(symbol, body) => ApplyDelta(m, symbol, body)
  }

  const EMPTY := Market(map[], map[])

  function Run(feed: seq<Feed>): Market {
    if feed == [] then EMPTY else Step(Run(feed[..|feed| - 1]), feed[|feed| - 1])
  }

  // -------------------------------------------------------------------------
  // What the feed says, told without any book
  // -------------------------------------------------------------------------

  /** The ids accepted for a symbol since its last snapshot, that snapshot's first. */
  function AcceptedIds(feed: seq<Feed>, symbol: string): seq<nat> {
    if feed == [] then [] else NextIds(AcceptedIds(feed[..|feed| - 1], symbol), feed[|feed| - 1], symbol)
  }

  function NextIds(ids: seq<nat>, e: Feed, symbol: string): seq<nat> {
    if e.symbol != symbol || !e.body.complete then ids
    else if e.Snapshot? then [e.body.id]
    else if ids == [] || Stale(ids[|ids| - 1], e.body.id) then ids
    else ids + [e.body.id]
  }

  function BothSides(body: Message, bid: bool): seq<Level> {
    Levels(if bid then body.bids else body.asks)
  }

  /** The levels accepted for one side since the last snapshot, in order. */
  function Mentions(feed: seq<Feed>, symbol: string, bid: bool): seq<Level> {
    if feed == [] then []
    else
      var before, e := feed[..|feed| - 1], feed[|feed| - 1];
      NextMentions(Mentions(before, symbol, bid), AcceptedIds(before, symbol), e, symbol, bid)
  }

  function NextMentions(mentions: seq<Level>, ids: seq<nat>, e: Feed, symbol: string, bid: bool): seq<Level> {
    if e.symbol != symbol || !e.body.complete then mentions
    else if e.Snapshot? then Positive(BothSides(e.body, bid))
    else if ids == [] || Stale(ids[|ids| - 1], e.body.id) then mentions
    else mentions + BothSides(e.body, bid)
  }

  function Positive(levels: seq<Level>): seq<Level> {
    if levels == [] then []
    else
      var l := levels[|levels| - 1];
      Positive(levels[..|levels| - 1]) + (if l.Level? && l.qty > 0.0 then [l] else [])
  }

  /** The quantity a price was last given, 0 if none. */
  function LastMention(mentions: seq<Level>, price: real): real {
    if mentions == [] then 0.0
    else
      var l := mentions[|mentions| - 1];
      if l.Level? && l.price == price then l.qty else LastMention(mentions[..|mentions| - 1], price)
  }

  /** A side holds exactly the prices last mentioned with a non-zero quantity. */
  ghost predicate Reflects(side: map<real, real>, mentions: seq<Level>) {
    && (forall p :: p in side <==> LastMention(mentions, p) != 0.0)
    && (forall p <- side :: side[p] == LastMention(mentions, p))
  }

  // -------------------------------------------------------------------------
  // Last writer wins
  // -------------------------------------------------------------------------

  lemma {:induction false} ParseReflects(levels: seq<Level>)
    ensures Reflects(ParseLevels(levels), Positive(levels))
  {
    if levels != [] {
      var before, l := levels[..|levels| - 1], levels[|levels| - 1];
      ParseReflects(before);
      if l.Level? && l.qty > 0.0 {
        assert Positive(levels)[..|Positive(levels)| - 1] == Positive(before);
      } else {
        assert Positive(levels) == Positive(before);
      }
    }
  }

  predicate IsQuote(l: Level, price: real) { l.Level? && l.price == price && l.qty > 0.0 }

  /** A snapshot side holds a price exactly when some entry quotes it with a quantity above
      zero, and then the quantity of the last such entry. */
  lemma {:induction false} SnapshotHoldsLastQuote(levels: seq<Level>, price: real)
    ensures price in ParseLevels(levels) <==> exists i :: 0 <= i < |levels| && IsQuote(levels[i], price)
    ensures forall i | 0 <= i < |levels| && IsQuote(levels[i], price) &&
                       (forall j | i < j < |levels| :: !IsQuote(levels[j], price)) ::
              ParseLevels(levels)[price] == levels[i].qty
  {
    if levels != [] {
      var n := |levels| - 1;
      SnapshotHoldsLastQuote(levels[..n], price);
      assert forall i | 0 <= i < n :: levels[..n][i] == levels[i];
      if !IsQuote(levels[n], price) {
        assert (price in ParseLevels(levels)) == (price in ParseLevels(levels[..n]));
        if price in ParseLevels(levels[..n]) {
          var i :| 0 <= i < n && IsQuote(levels[..n][i], price);
          assert IsQuote(levels[i], price);
        }
      } else {
        assert levels[n].price == price;
      }
    }
  }

  lemma {:induction false} ApplyReflects(side: map<real, real>, mentions: seq<Level>, levels: seq<Level>)
    requires Reflects(side, mentions)
    ensures Reflects(ApplyLevels(side, levels), mentions + levels)
    decreases |levels|
  {
    if levels == [] {
      assert mentions + levels == mentions;
    } else {
      var before, l := levels[..|levels| - 1], levels[|levels| - 1];
      ApplyReflects(side, mentions, before);
      assert (mentions + levels)[..|mentions + levels| - 1] == mentions + before;
    }
  }

  /** There is a book exactly when an id was accepted; it carries the last one, and its
      sides hold the last mentions. */
  ghost predicate Follows(m: Market, ids: seq<nat>, bids: seq<Level>, asks: seq<Level>, symbol: string) {
    && (symbol in m.books <==> ids != []) && m.lastSequence.Keys == m.books.Keys
    && (ids != [] ==>
          && m.lastSequence[symbol] == m.books[symbol].sequenceId == ids[|ids| - 1]
          && Reflects(m.books[symbol].bids, bids) && Reflects(m.books[symbol].asks, asks))
  }

  lemma StepFollows(m: Market, ids: seq<nat>, bids: seq<Level>, asks: seq<Level>, e: Feed, symbol: string)
    requires Follows(m, ids, bids, asks, symbol)
    ensures Follows(Step(m, e), NextIds(ids, e, symbol), NextMentions(bids, ids, e, symbol, true),
                    NextMentions(asks, ids, e, symbol, false), symbol)
  {
    hide Reflects, ParseLevels, ApplyLevels, Positive;
    if e.symbol == symbol && e.body.complete {
      if e.Snapshot? {
        ParseReflects(Levels(e.body.bids));
        ParseReflects(Levels(e.body.asks));
      } else if ids != [] {
        ApplyReflects(m.books[symbol].bids, bids, Levels(e.body.bids));
        ApplyReflects(m.books[symbol].asks, asks, Levels(e.body.asks));
      }
    }
  }

  /** Whatever was fed in, with duplicates and reordering, each price of each book
      holds the quantity of its last accepted mention since the last snapshot. */
  lemma {:induction false} BookReflectsFeed(feed: seq<Feed>, symbol: string)
    ensures Follows(Run(feed), AcceptedIds(feed, symbol), Mentions(feed, symbol, true), Mentions(feed, symbol, false), symbol)
    decreases |feed|
  {
    hide Follows, Step, NextIds, NextMentions;
    if feed == [] {
      NothingFollows(symbol);
    } else {
      var before := feed[..|feed| - 1];
      BookReflectsFeed(before, symbol);
      StepFollows(Run(before), AcceptedIds(before, symbol), Mentions(before, symbol, true),
                  Mentions(before, symbol, false), feed[|feed| - 1], symbol);
    }
  }

  lemma NothingFollows(symbol: string)
    ensures Follows(EMPTY, [], [], [], symbol)
  {
  }

  /** After a complete snapshot each side of its book holds what that side of it quotes. */
  lemma SnapshotSetsSides(feed: seq<Feed>, symbol: string, body: Message, price: real)
    requires body.complete
    ensures
      var m := Run(feed + [Snapshot(symbol, body)]);
      && symbol in m.books
      && (price in m.books[symbol].bids <==> body.bids.Some? && exists i :: 0 <= i < |body.bids.value| && IsQuote(body.bids.value[i], price))
      && (price in m.books[symbol].asks <==> body.asks.Some? && exists i :: 0 <= i < |body.asks.value| && IsQuote(body.asks.value[i], price))
  {
    hide ParseLevels, Run;
    RunAppend(feed, Snapshot(symbol, body));
    SnapshotHoldsLastQuote(Levels(body.bids), price);
    SnapshotHoldsLastQuote(Levels(body.asks), price);
  }

  /** The time of the last accepted message that carried one, since and including the last
      snapshot, which counts as 0 without. */
  function LastTime(feed: seq<Feed>, symbol: string): int {
    if feed == [] then 0
    else
      var before, e := feed[..|feed| - 1], feed[|feed| - 1];
      var ids, body := AcceptedIds(before, symbol), e.body;
      if e.symbol != symbol || !body.complete then LastTime(before, symbol)
      else if e.Snapshot? then (if body.time.Some? then body.time.value else 0)
      else if ids == [] || Stale(ids[|ids| - 1], body.id) || body.time.None? then LastTime(before, symbol)
      else body.time.value
  }

  lemma {:induction false} TimeFollowsFeed(feed: seq<Feed>, symbol: string)
    requires symbol in Run(feed).books
    ensures Run(feed).books[symbol].timestamp == LastTime(feed, symbol)
  {
    hide ParseLevels, ApplyLevels, Reflects, Mentions;
    var before, e := feed[..|feed| - 1], feed[|feed| - 1];
    BookReflectsFeed(before, symbol);
    if symbol in Run(before).books {
      TimeFollowsFeed(before, symbol);
    }
  }

  /** A complete delta for a book is accepted exactly when its id exceeds the last accepted
      one, by however much, or that one is 0. */
  lemma DeltaAcceptedExactlyWhen(feed: seq<Feed>, e: Feed, symbol: string)
    requires e.Delta? && e.symbol == symbol && e.body.complete && AcceptedIds(feed, symbol) != []
    ensures
      var ids := AcceptedIds(feed, symbol);
      var last := ids[|ids| - 1];
      AcceptedIds(feed + [e], symbol) == if e.body.id > last || last == 0 then ids + [e.body.id] else ids
  {
    hide AcceptedIds;
    IdsAppend(feed, e, symbol);
  }

  /** No reachable book stores a level of quantity zero. */
  lemma NoZeroLevels(feed: seq<Feed>, symbol: string)
    requires symbol in Run(feed).books
    ensures var b := Run(feed).books[symbol];
            (forall p <- b.bids :: b.bids[p] != 0.0) && (forall p <- b.asks :: b.asks[p] != 0.0)
  {
    BookReflectsFeed(feed, symbol);
  }

  // -------------------------------------------------------------------------
  // Ids and re-delivery
  // -------------------------------------------------------------------------

  ghost predicate PositiveSnapshots(feed: seq<Feed>, symbol: string) {
    forall i | 0 <= i < |feed| && feed[i].Snapshot? && feed[i].symbol == symbol && feed[i].body.complete ::
      feed[i].body.id > 0
  }

  ghost predicate PositiveIncreasing(ids: seq<nat>) {
    && (forall i | 0 <= i < |ids| :: ids[i] > 0)
    && (forall i, j | 0 <= i < j < |ids| :: ids[i] < ids[j])
  }

  /** With positive snapshot ids, accepted ids strictly increase. */
  lemma {:induction false} AcceptedIdsIncrease(feed: seq<Feed>, symbol: string)
    requires PositiveSnapshots(feed, symbol)
    ensures PositiveIncreasing(AcceptedIds(feed, symbol))
  {
    if feed != [] {
      var before, e := feed[..|feed| - 1], feed[|feed| - 1];
      assert PositiveSnapshots(before, symbol) by {
        assert forall i | 0 <= i < |before| :: before[i] == feed[i];
      }
      AcceptedIdsIncrease(before, symbol);
      var ids := AcceptedIds(before, symbol);
      assert forall i | 0 <= i < |ids| - 1 :: ids[i] < ids[|ids| - 1];
    }
  }

  /** Once a complete delta went by since the last snapshot, its id is covered by the last
      accepted one, whatever the ids. */
  lemma {:induction false} PassedIdsAreCovered(feed: seq<Feed>, symbol: string, i: nat)
    requires IsLaterDelta(feed, symbol, i)
    ensures
      var ids := AcceptedIds(feed, symbol);
      ids != [] ==> feed[i].body.id <= ids[|ids| - 1]
  {
    var before := feed[..|feed| - 1];
    if i < |feed| - 1 {
      assert forall k | 0 <= k < |before| :: before[k] == feed[k];
      PassedIdsAreCovered(before, symbol, i);
    }
  }

  /** feed[i] is a complete delta of the symbol with no complete snapshot of it since. */
  ghost predicate IsLaterDelta(feed: seq<Feed>, symbol: string, i: nat) {
    && i < |feed| && feed[i].Delta? && feed[i].symbol == symbol && feed[i].body.complete
    && forall j | i < j < |feed| :: !(feed[j].Snapshot? && feed[j].symbol == symbol && feed[j].body.complete)
  }

  /** Whatever ids the snapshots carry: delivering an old delta again is rejected exactly
      when the last accepted id is not 0, and then it changes nothing in any book. */
  lemma RedeliveryRejectedExactlyWhen(feed: seq<Feed>, symbol: string, i: nat)
    requires IsLaterDelta(feed, symbol, i) && AcceptedIds(feed, symbol) != []
    ensures
      var ids := AcceptedIds(feed, symbol);
      && (AcceptedIds(feed + [feed[i]], symbol) == ids <==> ids[|ids| - 1] != 0)
      && (ids[|ids| - 1] != 0 ==> Run(feed + [feed[i]]) == Run(feed))
  {
    hide Run, AcceptedIds, ApplyDelta, Reflects, IsLaterDelta;
    IsDelta(feed, symbol, i);
    BookReflectsFeed(feed, symbol);
    PassedIdsAreCovered(feed, symbol, i);
    var ids, e := AcceptedIds(feed, symbol), feed[i];
    IdsAppend(feed, e, symbol);
    RunAppend(feed, e);
    if Stale(ids[|ids| - 1], e.body.id) {
      StaleChangesNothing(Run(feed), symbol, e.body);
    }
  }

  lemma IsDelta(feed: seq<Feed>, symbol: string, i: nat)
    requires IsLaterDelta(feed, symbol, i)
    ensures i < |feed| && feed[i].Delta? && feed[i].symbol == symbol && feed[i].body.complete
  {
  }

  lemma RunAppend(feed: seq<Feed>, e: Feed)
    ensures Run(feed + [e]) == Step(Run(feed), e)
  {
    assert (feed + [e])[..|feed|] == feed;
  }

  lemma IdsAppend(feed: seq<Feed>, e: Feed, symbol: string)
    ensures AcceptedIds(feed + [e], symbol) == NextIds(AcceptedIds(feed, symbol), e, symbol)
  {
    hide NextIds;
    assert (feed + [e])[..|feed|] == feed;
  }

  lemma StaleChangesNothing(m: Market, symbol: string, body: Message)
    requires symbol in m.books && symbol in m.lastSequence && Stale(m.lastSequence[symbol], body.id)
    ensures ApplyDelta(m, symbol, body) == m
  {
  }

  /** With positive snapshot ids, delivering an old delta again changes nothing, complete
      or not, and whether or not there is a book. */
  lemma RedeliveryIsIgnored(feed: seq<Feed>, i: nat)
    requires i < |feed| && feed[i].Delta?
    requires PositiveSnapshots(feed, feed[i].symbol)
    requires forall j | i < j < |feed| :: !(feed[j].Snapshot? && feed[j].symbol == feed[i].symbol && feed[j].body.complete)
    ensures Run(feed + [feed[i]]) == Run(feed)
  {
    var symbol := feed[i].symbol;
    assert (feed + [feed[i]])[..|feed|] == feed;
    BookReflectsFeed(feed, symbol);
    AcceptedIdsIncrease(feed, symbol);
    if feed[i].body.complete && AcceptedIds(feed, symbol) != [] {
      RedeliveryRejectedExactlyWhen(feed, symbol, i);
    }
  }

  /** A snapshot with id 0 switches the check off: an old delta is accepted again and
      overwrites a newer quantity. */
  lemma IdZeroAcceptsOldDelta()
    ensures
      var snapshot := Snapshot("X", Message(true, 0, Some([]), Some([]), None));
      var a, b := OneBid(1.0), OneBid(2.0);
      && Run([snapshot, a, b]) == OneBidMarket(2.0)
      && Run([snapshot, a, b, a]) == OneBidMarket(1.0)
  {
    var snapshot := Snapshot("X", Message(true, 0, Some([]), Some([]), None));
    var a, b := OneBid(1.0), OneBid(2.0);
    assert [snapshot][..0] == [] && [snapshot, a][..1] == [snapshot];
    assert [snapshot, a, b][..2] == [snapshot, a] && [snapshot, a, b, a][..3] == [snapshot, a, b];
    assert Run([snapshot]) == Market(map["X" := Book(map[], map[], 0, 0)], map["X" := 0]);
    OneBidStep(Run([snapshot]), 1.0);
    OneBidStep(Run([snapshot, a]), 2.0);
    OneBidStep(Run([snapshot, a, b]), 1.0);
  }

  function OneBid(qty: real): Feed {
    Delta("X", Message(true, 0, Some([Level(1.0, qty)]), Some([]), None))
  }

  function OneBidMarket(qty: real): Market {
    Market(map["X" := Book(map[1.0 := qty], map[], 0, 0)], map["X" := 0])
  }

  lemma OneBidStep(m: Market, qty: real)
    requires qty != 0.0
    requires m == Market(map["X" := Book(map[], map[], 0, 0)], map["X" := 0]) || exists q :: m == OneBidMarket(q)
    ensures Step(m, OneBid(qty)) == OneBidMarket(qty)
  {
    var levels := [Level(1.0, qty)];
    assert levels[..0] == [];
    assert ApplyLevels(m.books["X"].bids, levels) == map[1.0 := qty];
  }

  // -------------------------------------------------------------------------
  // Best levels
  // -------------------------------------------------------------------------

  datatype PriceLevel = PriceLevel(price: real, quantity: real)

  predicate Better(bid: bool, a: real, b: real) {
    if bid then a > b else a < b
  }

  /** The best n levels of a side: as many as there are up to n, strictly sorted, and
      none left out that is better than one listed. */
  ghost predicate IsTop(top: seq<PriceLevel>, side: map<real, real>, n: nat, bid: bool) {
    && |top| == Min(n, |side|)
    && (forall i | 0 <= i < |top| :: top[i].price in side && top[i].quantity == side[top[i].price])
    && (forall i, j | 0 <= i < j < |top| :: Better(bid, top[i].price, top[j].price))
    && (forall p <- side :: Listed(top, p) || forall i | 0 <= i < |top| :: Better(bid, top[i].price, p))
  }

  ghost predicate Listed(top: seq<PriceLevel>, p: real) {
    exists i :: 0 <= i < |top| && top[i].price == p
  }

  /** The levels better than every one of quantity zero, where the walk stops. */
  ghost function BeforeZeros(side: map<real, real>, bid: bool): map<real, real> {
    map p | p in side && BeatsZeros(side, bid, p) :: side[p]
  }

  ghost predicate BeatsZeros(side: map<real, real>, bid: bool, p: real) {
    forall q <- side :: side[q] == 0.0 ==> Better(bid, p, q)
  }

  /** No level of a reachable book is held back, so there the walk lists the best n of all. */
  lemma NothingHeldBack(feed: seq<Feed>, symbol: string)
    requires symbol in Run(feed).books
    ensures var b := Run(feed).books[symbol];
            BeforeZeros(b.bids, true) == b.bids && BeforeZeros(b.asks, false) == b.asks
  {
    NoZeroLevels(feed, symbol);
    NoneHeldBack(Run(feed).books[symbol].bids, true);
    NoneHeldBack(Run(feed).books[symbol].asks, false);
  }

  lemma NoneHeldBack(side: map<real, real>, bid: bool)
    requires forall p <- side :: side[p] != 0.0
    ensures BeforeZeros(side, bid) == side
  {
  }

  /** There is only one such list. */
  lemma TopIsUnique(a: seq<PriceLevel>, b: seq<PriceLevel>, side: map<real, real>, n: nat, bid: bool)
    requires IsTop(a, side, n, bid) && IsTop(b, side, n, bid)
    ensures a == b
  {
    hide IsTop;
    TopLength(a, side, n, bid);
    TopLength(b, side, n, bid);
    var i := 0;
    while i < |a|
      invariant i <= |a|
      invariant forall k | 0 <= k < i :: a[k] == b[k]
    {
      SamePlace(a, b, side, n, bid, i);
      i := i + 1;
    }
  }

  lemma TopLength(top: seq<PriceLevel>, side: map<real, real>, n: nat, bid: bool)
    requires IsTop(top, side, n, bid)
    ensures |top| == Min(n, |side|)
  {
  }

  lemma SamePlace(a: seq<PriceLevel>, b: seq<PriceLevel>, side: map<real, real>, n: nat, bid: bool, i: nat)
    requires IsTop(a, side, n, bid) && IsTop(b, side, n, bid) && i < |a|
    requires forall k | 0 <= k < i :: a[k] == b[k]
    ensures i < |b| && a[i] == b[i]
  {
    NextAgrees(a, b, side, n, bid, i);
    NextAgrees(b, a, side, n, bid, i);
  }

  lemma NextAgrees(a: seq<PriceLevel>, b: seq<PriceLevel>, side: map<real, real>, n: nat, bid: bool, i: nat)
    requires IsTop(a, side, n, bid) && IsTop(b, side, n, bid) && i < |a|
    requires forall k | 0 <= k < i :: a[k] == b[k]
    ensures !Better(bid, a[i].price, b[i].price)
  {
    if Listed(b, a[i].price) {
      var j :| 0 <= j < |b| && b[j].price == a[i].price;
      assert forall k | 0 <= k < i :: a[k].price != a[i].price;
    }
  }

  // -------------------------------------------------------------------------
  // The manager object
  // -------------------------------------------------------------------------

  class Manager {
    var books: map<string, Book>
    var lastSequence: map<string, nat>

    ghost function State(): Market
      reads this
    {
      Market(books, lastSequence)
    }

    constructor ()
      ensures State() == EMPTY
    {
      books, lastSequence := map[], map[];
    }

    method ParseSide(levels: Option<seq<Level>>) returns (side: map<real, real>)
      ensures side == ParseLevels(Levels(levels))
    {
      side := map[];
      if levels.None? {
        return;
      }
      for i := 0 to |levels.value|
        invariant side == ParseLevels(levels.value[..i])
      {
        assert levels.value[..i + 1][..i] == levels.value[..i];
        var l := levels.value[i];
        if l.Level? && l.qty > 0.0 {
          side := side[l.price := l.qty];
        }
      }
      assert levels.value[..|levels.value|] == levels.value;
    }

    method ApplySide(book: map<real, real>, levels: Option<seq<Level>>) returns (side: map<real, real>)
      ensures side == ApplyLevels(book, Levels(levels))
    {
      side := book;
      if levels.None? {
        return;
      }
      for i := 0 to |levels.value|
        invariant side == ApplyLevels(book, levels.value[..i])
      {
        assert levels.value[..i + 1][..i] == levels.value[..i];
        var l := levels.value[i];
        if l.Level? {
          if l.qty == 0.0 {
            side := side - {l.price};
          } else {
            side := side[l.price := l.qty];
          }
        }
      }
      assert levels.value[..|levels.value|] == levels.value;
    }

    method OnSnapshot(symbol: string, body: Message)
      modifies this
      ensures State() == Step(old(State()), Snapshot(symbol, body))
    {
      if !body.complete {
        return;
      }
      var bids := ParseSide(body.bids);
      var asks := ParseSide(body.asks);
      var time := if body.time.Some? then body.time.value else 0;
      books := books[symbol := Book(bids, asks, body.id, time)];
      lastSequence := lastSequence[symbol := body.id];
    }

    method OnDelta(symbol: string, body: Message)
      modifies this
      ensures State() == Step(old(State()), Delta(symbol, body))
    {
      if !body.complete || symbol !in books {
        return;
      }
      var last := if symbol in lastSequence then lastSequence[symbol] else 0;
      if body.id <= last && last != 0 {
        return;
      }
      var book := books[symbol];
      var bids := ApplySide(book.bids, body.bids);
      var asks := ApplySide(book.asks, body.asks);
      var time := if body.time.Some? then body.time.value else book.timestamp;
      books := books[symbol := Book(bids, asks, body.id, time)];
      lastSequence := lastSequence[symbol := body.id];
    }

    method TopBids(symbol: string, n: nat) returns (top: seq<PriceLevel>)
      ensures if symbol in books then IsTop(top, BeforeZeros(books[symbol].bids, true), n, true) else top == []
    {
      if symbol !in books {
        return [];
      }
      top := Best(books[symbol].bids, n, true);
    }

    method TopAsks(symbol: string, n: nat) returns (top: seq<PriceLevel>)
      ensures if symbol in books then IsTop(top, BeforeZeros(books[symbol].asks, false), n, false) else top == []
    {
      if symbol !in books {
        return [];
      }
      top := Best(books[symbol].asks, n, false);
    }
  }

  /** Walks a side in key order, best price first, and stops after n levels or at a
      level of quantity zero. */
  method Best(side: map<real, real>, n: nat, bid: bool) returns (top: seq<PriceLevel>)
    ensures IsTop(top, BeforeZeros(side, bid), n, bid)
  {
    hide BeatsZeros, BeforeZeros, Listed;
    top := [];
    var rest := side.Keys;
    while rest != {}
      invariant rest <= side.Keys && |top| + |rest| == |side.Keys| && |top| <= n
      invariant forall i | 0 <= i < |top| :: top[i].price in side && top[i].quantity == side[top[i].price]
      invariant forall i, j | 0 <= i < j < |top| :: Better(bid, top[i].price, top[j].price)
      invariant forall p <- rest, i | 0 <= i < |top| :: Better(bid, top[i].price, p)
      invariant forall p | p in side.Keys && p !in rest :: Listed(top, p) && side[p] != 0.0
      decreases rest
    {
      var p := FirstKey(rest, bid);
      if |top| >= n || side[p] == 0.0 {
        ListedBeats(top, p, bid);
        Shown(side, rest, p, bid);
        return;
      }
      ghost var was := top;
      top := top + [PriceLevel(p, side[p])];
      rest := rest - {p};
      ListedExtends(was, PriceLevel(p, side[p]));
    }
    NoneHeldBack(side, bid);
  }

  lemma ListedBeats(top: seq<PriceLevel>, p: real, bid: bool)
    requires forall i | 0 <= i < |top| :: Better(bid, top[i].price, p)
    ensures forall q :: Listed(top, q) ==> Better(bid, q, p)
  {
  }

  lemma ListedExtends(top: seq<PriceLevel>, next: PriceLevel)
    ensures Listed(top + [next], next.price)
    ensures forall q :: Listed(top, q) ==> Listed(top + [next], q)
  {
    assert (top + [next])[|top|] == next;
    forall q | Listed(top, q)
      ensures Listed(top + [next], q)
    {
      var i :| 0 <= i < |top| && top[i].price == q;
      assert (top + [next])[i].price == q;
    }
  }

  /** The levels a walk has behind it when it stands at p are all before the zeros; and
      they are all of those, when p is a zero itself. */
  lemma Behind(side: map<real, real>, rest: set<real>, p: real, bid: bool, q: real)
    requires p in rest && rest <= side.Keys && q in side
    requires forall z <- rest :: z == p || Better(bid, p, z)
    requires forall z | z in side.Keys && z !in rest :: Better(bid, z, p) && side[z] != 0.0
    ensures q !in rest ==> BeatsZeros(side, bid, q)
    ensures side[p] == 0.0 && q in rest ==> !BeatsZeros(side, bid, q)
  {
    if side[p] == 0.0 && q in rest {
      assert !Better(bid, q, p);
    }
  }

  lemma Shown(side: map<real, real>, rest: set<real>, p: real, bid: bool)
    requires p in rest && rest <= side.Keys
    requires forall z <- rest :: z == p || Better(bid, p, z)
    requires forall z | z in side.Keys && z !in rest :: Better(bid, z, p) && side[z] != 0.0
    ensures |BeforeZeros(side, bid)| >= |side| - |rest|
    ensures side[p] == 0.0 ==> |BeforeZeros(side, bid)| == |side| - |rest|
    ensures side[p] == 0.0 ==> forall q | q in BeforeZeros(side, bid) :: q !in rest
    ensures forall q | q in BeforeZeros(side, bid) :: q in side && BeforeZeros(side, bid)[q] == side[q]
    ensures forall q | q in side && q !in rest :: q in BeforeZeros(side, bid)
  {
    hide Better, BeatsZeros;
    var shown := BeforeZeros(side, bid).Keys;
    forall q | q in side
      ensures (q !in rest ==> q in shown) && (side[p] == 0.0 && q in rest ==> q !in shown)
    {
      Behind(side, rest, p, bid, q);
    }
    Sizes(side.Keys, rest, shown);
  }

  lemma Sizes(all: set<real>, rest: set<real>, shown: set<real>)
    requires rest <= all && shown <= all && (forall q | q in all :: q in rest || q in shown)
    ensures |shown| >= |all| - |rest|
    ensures (forall q | q in shown :: q !in rest) ==> |shown| == |all| - |rest|
  {
    var behind := all - rest;
    assert behind <= shown by {
      forall q | q in behind ensures q in shown {
        assert q in all && q !in rest;
      }
    }
    SubsetSize(behind, shown);
    assert all == behind + rest;
    if forall q | q in shown :: q !in rest {
      assert shown == behind;
    }
  }

  lemma {:induction false} SubsetSize(a: set<real>, b: set<real>)
    requires a <= b
    ensures |a| <= |b|
  {
    assert b == a + (b - a);
  }

  method FirstKey(keys: set<real>, bid: bool) returns (first: real)
    requires keys != {}
    ensures first in keys && forall p <- keys :: p == first || Better(bid, first, p)
  {
    first := AnyOf(keys);
    var rest := keys - {first};
    while rest != {}
      invariant first in keys && rest <= keys
      invariant forall p | p in keys && p !in rest :: p == first || Better(bid, first, p)
      decreases rest
    {
      var p := AnyOf(rest);
      if Better(bid, p, first) {
        first := p;
      }
      rest := rest - {p};
    }
  }

  method AnyOf<T(==)>(s: set<T>) returns (x: T)
    requires s != {}
    ensures x in s
  {
    x :| x in s;
  }
}
