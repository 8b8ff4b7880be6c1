/** The deduplicated rolling window shared by the news feed, keyed by URL, and the
    tweet feed, keyed by id: a deque of items and an index of the keys in it. */
module RollingFeed {
  import opened Types

  datatype Item = Item(key: string, text: string, timestamp: int)

  function Keys(items: seq<Item>): set<string> {
    set i | 0 <= i < |items| :: items[i].key
  }

  ghost predicate Distinct(items: seq<Item>) {
    forall i, j | 0 <= i < j < |items| :: items[i].key != items[j].key
  }

  /** The batch items seen for the first time: not in the window, and not before in the
      batch. An item that does not parse is None. */
  function Fresh(seen: set<string>, batch: seq<Option<Item>>): seq<Item> {
    if batch == [] then []
    else
      var before, x := Fresh(seen, batch[..|batch| - 1]), batch[|batch| - 1];
      if x.None? || x.value.key in seen || x.value.key in Keys(before) then before
      else before + [x.value]
  }

  /** The window after a poll. */
  function Polled(window: seq<Item>, batch: seq<Option<Item>>, max: nat): seq<Item> {
    Suffix(window + Fresh(Keys(window), batch), max)
  }

  datatype Event = Poll(batch: seq<Option<Item>>) | Clear

  function Run(max: nat, events: seq<Event>): seq<Item> {
    if events == [] then []
    else
      match events[|events| - 1]
      case Poll(batch) => Polled(Run(max, events[..|events| - 1]), batch, max)
      case Clear => []
  }

  lemma KeysOfConcat(a: seq<Item>, b: seq<Item>)
    ensures Keys(a + b) == Keys(a) + Keys(b)
  {
    assert forall i | 0 <= i < |a| :: (a + b)[i] == a[i];
    assert forall i | 0 <= i < |b| :: (a + b)[|a| + i] == b[i];
  }

  /** Where the i-th batch item is the first of its key. */
  ghost predicate FirstSeen(seen: set<string>, batch: seq<Option<Item>>, i: nat)
    requires i < |batch|
  {
    && batch[i].Some? && batch[i].value.key !in seen
    && forall j | 0 <= j < i :: batch[j].Some? ==> batch[j].value.key != batch[i].value.key
  }

  /** Fresh brings in no key twice and none that was known; afterwards every key of the
      batch is known. */
  lemma {:induction false} FreshKeys(seen: set<string>, batch: seq<Option<Item>>)
    ensures Distinct(Fresh(seen, batch)) && Keys(Fresh(seen, batch)) !! seen
    ensures forall i | 0 <= i < |batch| && batch[i].Some? :: batch[i].value.key in seen + Keys(Fresh(seen, batch))
  {
    if batch != [] {
      var n := |batch| - 1;
      FreshKeys(seen, batch[..n]);
      var before, x := Fresh(seen, batch[..n]), batch[n];
      assert forall i | 0 <= i < n :: batch[i] == batch[..n][i];
      if x.Some? && x.value.key !in seen && x.value.key !in Keys(before) {
        KeysOfConcat(before, [x.value]);
        assert [x.value][0].key in Keys([x.value]);
      }
    }
  }

  /** The positions in the batch of the items Fresh picks. */
  ghost predicate Places(seen: set<string>, batch: seq<Option<Item>>, at: seq<nat>) {
    var picked := Fresh(seen, batch);
    && |at| == |picked|
    && (forall k | 0 <= k < |at| :: at[k] < |batch| && FirstSeen(seen, batch, at[k]) && batch[at[k]].value == picked[k])
    && (forall k, m | 0 <= k < m < |at| :: at[k] < at[m])
    && (forall i: nat | i < |batch| && FirstSeen(seen, batch, i) :: i in at)
  }

  lemma {:induction false} FreshComesFromBatch(seen: set<string>, batch: seq<Option<Item>>, key: string) returns (i: nat)
    requires key in Keys(Fresh(seen, batch))
    ensures i < |batch| && batch[i].Some? && batch[i].value.key == key
  {
    var n := |batch| - 1;
    var before := Fresh(seen, batch[..n]);
    if key in Keys(before) {
      i := FreshComesFromBatch(seen, batch[..n], key);
    } else {
      i := n;
      KeysOfConcat(before, [batch[n].value]);
    }
  }

  /** The last item is taken exactly when it is the first of its key. */
  lemma LastIsTakenIffFirst(seen: set<string>, batch: seq<Option<Item>>)
    requires batch != []
    ensures
      var n := |batch| - 1;
      Fresh(seen, batch) == Fresh(seen, batch[..n]) + if FirstSeen(seen, batch, n) then [batch[n].value] else []
  {
    var n := |batch| - 1;
    var before, x := Fresh(seen, batch[..n]), batch[n];
    FreshKeys(seen, batch[..n]);
    if x.Some? && x.value.key in Keys(before) {
      var i := FreshComesFromBatch(seen, batch[..n], x.value.key);
      assert batch[i] == batch[..n][i];
    } else if x.Some? && x.value.key !in seen {
      assert forall j | 0 <= j < n :: batch[j] == batch[..n][j];
    }
  }

  lemma FirstSeenInPrefix(seen: set<string>, batch: seq<Option<Item>>, n: nat)
    requires n <= |batch|
    ensures forall i: nat | i < n :: batch[..n][i] == batch[i]
    ensures forall i: nat | i < n :: FirstSeen(seen, batch, i) <==> FirstSeen(seen, batch[..n], i)
  {
  }

  /** Fresh picks, in batch order, exactly the items first seen there. `at` gives their
      positions. */
  lemma {:induction false} FreshIsFirstSeen(seen: set<string>, batch: seq<Option<Item>>) returns (at: seq<nat>)
    ensures Places(seen, batch, at)
  {
    hide Fresh;
    if batch == [] {
      at := [];
      FreshOfNothing(seen);
    } else {
      var n := |batch| - 1;
      at := FreshIsFirstSeen(seen, batch[..n]);
      LastIsTakenIffFirst(seen, batch);
      FirstSeenInPrefix(seen, batch, n);
      hide FirstSeen;
      if FirstSeen(seen, batch, n) {
        at := at + [n];
      }
    }
  }

  lemma FreshOfNothing(seen: set<string>)
    ensures Fresh(seen, []) == []
  {
  }

  lemma SuffixDistinct(items: seq<Item>, max: nat)
    requires Distinct(items)
    ensures Distinct(Suffix(items, max))
  {
  }

  lemma PolledDistinct(window: seq<Item>, batch: seq<Option<Item>>, max: nat)
    requires Distinct(window)
    ensures Distinct(window + Fresh(Keys(window), batch)) && Distinct(Polled(window, batch, max))
  {
    FreshKeys(Keys(window), batch);
    var added := Fresh(Keys(window), batch);
    forall i, j | 0 <= i < j < |window + added|
      ensures (window + added)[i].key != (window + added)[j].key
    {
      if i < |window| <= j {
        assert window[i].key in Keys(window) && added[j - |window|].key in Keys(added);
      }
    }
    SuffixDistinct(window + added, max);
  }

  /** After any polls and clears the keys in the window are distinct and at most max. */
  lemma {:induction false} WindowIsDistinct(max: nat, events: seq<Event>)
    ensures Distinct(Run(max, events)) && |Run(max, events)| <= max
  {
    if events != [] {
      WindowIsDistinct(max, events[..|events| - 1]);
      match events[|events| - 1]
      case Poll(batch) => PolledDistinct(Run(max, events[..|events| - 1]), batch, max);
      case Clear =>
    }
  }

  /** Everything taken in since the last clear, in order of arrival. */
  function Taken(max: nat, events: seq<Event>): seq<Item> {
    if events == [] then []
    else
      var before := events[..|events| - 1];
      match events[|events| - 1]
      case Poll(batch) => Taken(max, before) + Fresh(Keys(Run(max, before)), batch)
      case Clear => []
  }

  /** Only the oldest arrivals are ever evicted: the window is the tail of what was taken
      in since the last clear. */
  lemma {:induction false} WindowIsTail(max: nat, events: seq<Event>)
    ensures Run(max, events) == Suffix(Taken(max, events), max)
  {
    if events != [] {
      WindowIsTail(max, events[..|events| - 1]);
    }
  }

  lemma {:induction false} NothingFresh(seen: set<string>, batch: seq<Option<Item>>)
    requires forall i | 0 <= i < |batch| && batch[i].Some? :: batch[i].value.key in seen
    ensures Fresh(seen, batch) == []
  {
    if batch != [] {
      NothingFresh(seen, batch[..|batch| - 1]);
    }
  }

  lemma SuffixLast(items: seq<Item>, max: nat)
    requires items != [] && max > 0
    ensures items[|items| - 1].key in Keys(Suffix(items, max))
  {
    var kept := Suffix(items, max);
    assert kept[|kept| - 1] == items[|items| - 1];
  }

  /** Polling the same batch again changes nothing exactly when every item of it is still
      in the window, or there is no room for any. */
  lemma RepeatedPollIsIdleExactlyWhen(window: seq<Item>, batch: seq<Option<Item>>, max: nat)
    ensures
      var once := Polled(window, batch, max);
      Polled(once, batch, max) == once <==>
        max == 0 || forall i | 0 <= i < |batch| && batch[i].Some? :: batch[i].value.key in Keys(once)
  {
    var once := Polled(window, batch, max);
    var added := Fresh(Keys(once), batch);
    FreshKeys(Keys(once), batch);
    if added == [] {
      assert once + [] == once;
    } else {
      assert added[|added| - 1].key in Keys(added);
      if max > 0 {
        SuffixLast(once + added, max);
      }
    }
    if forall i | 0 <= i < |batch| && batch[i].Some? :: batch[i].value.key in Keys(once) {
      NothingFresh(Keys(once), batch);
    }
  }

  /** An evicted item counts as new again: with room for one, the same two-item batch
      polled twice is all new each time. */
  lemma EvictedItemReturns(a: Item, b: Item)
    requires a.key != b.key
    ensures
      var batch := [Some(a), Some(b)];
      Polled([], batch, 1) == [b] && Fresh(Keys([b]), batch) == [a] && Polled([b], batch, 1) == [a]
  {
    var batch := [Some(a), Some(b)];
    assert batch[..1] == [Some(a)] && [Some(a)][..0] == [];
    assert Fresh({}, [Some(a)]) == [a];
    assert [a][0].key in Keys([a]) && Keys([a]) == {a.key};
    assert Keys([]) == {} && Fresh({}, batch) == [a, b];
    assert [b][0].key in Keys([b]) && Keys([b]) == {b.key};
    assert Fresh({b.key}, [Some(a)]) == [a];
  }

  // -------------------------------------------------------------------------
  // The feed object
  // -------------------------------------------------------------------------

  class Feed {
    const max: nat
    var items: seq<Item>
    var seen: set<string>

    /** The index holds exactly the keys in the window. */
    ghost predicate Valid()
      reads this
    {
      Distinct(items) && seen == Keys(items) && |items| <= max
    }

    constructor (max: nat)
      ensures Valid() && this.max == max && items == []
    {
      this.max, items, seen := max, [], {};
    }

    /** Takes in the parsed batch of a poll and returns how many items were new. */
    method TakeBatch(batch: seq<Option<Item>>) returns (newCount: nat)
      requires Valid()
      modifies this`items, this`seen
      ensures Valid()
      ensures items == Polled(old(items), batch, max)
      ensures newCount == |Fresh(old(seen), batch)|
    {
      newCount := 0;
      ghost var window := items;
      for i := 0 to |batch|
        invariant items == window + Fresh(Keys(window), batch[..i]) && seen == Keys(items)
        invariant newCount == |Fresh(Keys(window), batch[..i])|
      {
        assert batch[..i + 1][..i] == batch[..i];
        KeysOfConcat(window, Fresh(Keys(window), batch[..i]));
        if batch[i].Some? {
          var item := batch[i].value;
          if item.key !in seen {
            KeysOfConcat(items, [item]);
            assert Keys([item]) == {item.key} by { assert [item][0].key in Keys([item]); }
            seen := seen + {item.key};
            items := items + [item];
            newCount := newCount + 1;
          }
        }
      }
      assert batch[..|batch|] == batch;
      PolledDistinct(window, batch, max);
      Trim();
    }

    /** Evicts from the front until the window fits, keeping the index in step. */
    method Trim()
      requires Distinct(items) && seen == Keys(items)
      modifies this`items, this`seen
      ensures Valid()
      ensures items == Suffix(old(items), max)
    {
      ghost var k := 0;
      while |items| > max
        invariant k <= |old(items)| && items == old(items)[k..] && seen == Keys(items) && Distinct(items)
        invariant k > 0 ==> |items| >= max
        decreases |items|
      {
        var front := items[0];
        KeysOfConcat([front], items[1..]);
        assert items == [front] + items[1..];
        assert Keys([front]) == {front.key} by { assert [front][0].key in Keys([front]); }
        seen := seen - {front.key};
        items := items[1..];
        k := k + 1;
      }
    }

    method ClearAll()
      modifies this`items, this`seen
      ensures Valid() && items == []
    {
      items := [];
      seen := {};
    }
  }
}
