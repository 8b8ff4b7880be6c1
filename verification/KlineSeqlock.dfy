/** The lock-free candle buffer as a transition system: every atomic load and
    store of one writer and any number of readers is a step of its own, and a
    candle is copied field by field, so a reader can see a torn candle. Memory is
    sequentially consistent. */
module KlineSeqlock {
  import opened Types
  import opened RingMath

  const FIELDS: nat := 8

  /** One field-sized store of a candle copy. */
  function CopyField(dst: Kline, src: Kline, j: nat): Kline
    requires j < FIELDS
  {
    match j
    case 0 => dst.(openTime := src.openTime)
    case 1 => dst.(closeTime := src.closeTime)
    case 2 => dst.(open := src.open)
    case 3 => dst.(high := src.high)
    case 4 => dst.(low := src.low)
    case 5 => dst.(close := src.close)
    case 6 => dst.(volume := src.volume)
    case 7 => dst.(closed := src.closed)
  }

  /** The first j fields of a and b agree. */
  ghost predicate AgreeBelow(a: Kline, b: Kline, j: nat) {
    && (0 < j ==> a.openTime == b.openTime)
    && (1 < j ==> a.closeTime == b.closeTime)
    && (2 < j ==> a.open == b.open)
    && (3 < j ==> a.high == b.high)
    && (4 < j ==> a.low == b.low)
    && (5 < j ==> a.close == b.close)
    && (6 < j ==> a.volume == b.volume)
    && (7 < j ==> a.closed == b.closed)
  }

  // -------------------------------------------------------------------------
  // State
  // -------------------------------------------------------------------------

  datatype Shared = Shared(cap: nat, buf: seq<Kline>, head: nat, count: nat, seqlock: nat)

  /** Where the writer stands inside push. */
  datatype Writer =
    | Idle
    | LoadHead(k: Kline)
    | StoreField(k: Kline, pos: nat, j: nat)
    | StoreHead(k: Kline, pos: nat)
    | LoadCount(k: Kline)
    | StoreCount(k: Kline, current: nat)
    | Publish(k: Kline)

  datatype Call = Snapshot(n: nat) | Latest

  /** Where a reader stands inside snapshot or latest. `began` is the number of
      completed pushes when the call started, `ended` when it made its last load.
      An empty optional from latest is the empty sequence. */
  datatype Reader =
    | AtSeq(call: Call, began: nat)
    | AtCount(call: Call, began: nat, seq1: nat)
    | AtIndex(call: Call, began: nat, seq1: nat, total: nat, out: seq<Kline>)
    | AtHead(call: Call, began: nat, seq1: nat, total: nat, out: seq<Kline>, count2: nat)
    | AtCopy(call: Call, began: nat, seq1: nat, total: nat, out: seq<Kline>, slot: nat, part: Kline, j: nat)
    | Returned(call: Call, began: nat, ended: nat, result: seq<Kline>)

  /** `history` lists the completed pushes, oldest first. */
  datatype System = System(mem: Shared, writer: Writer, history: seq<Kline>, readers: map<nat, Reader>)

  /** One scheduler choice. */
  datatype Event = BeginPush(k: Kline) | WriterStep | BeginRead(tid: nat, call: Call) | ReaderStep(tid: nat)

  /** How many candles a call that loaded `total` asks for. */
  function Wanted(call: Call, total: nat): (w: nat)
    ensures w <= total
  {
    match call
    case Snapshot(n) => if n == 0 || n > total then total else n
    case Latest => if total == 0 then 0 else 1
  }

  function Init(cap: nat): System {
    System(Shared(cap, seq(cap, _ => ZERO_KLINE), 0, 0, 0), Idle, [], map[])
  }

  // -------------------------------------------------------------------------
  // Steps
  // -------------------------------------------------------------------------

  /** Every index a thread is about to touch is inside the buffer. */
  ghost predicate InBounds(s: System) {
    && s.mem.cap > 0
    && |s.mem.buf| == s.mem.cap
    && s.mem.head < s.mem.cap
    && s.mem.count <= s.mem.cap
    && (s.writer.StoreField? ==> s.writer.pos < s.mem.cap && s.writer.j < FIELDS)
    && (s.writer.StoreHead? ==> s.writer.pos < s.mem.cap)
    && (s.writer.StoreCount? ==> s.writer.current <= s.mem.cap)
    && forall t <- s.readers :: ReaderInBounds(s.readers[t], s.mem.cap)
  }

  ghost predicate ReaderInBounds(r: Reader, cap: nat) {
    && (r.AtIndex? || r.AtHead? || r.AtCopy? ==>
          r.total <= cap && |r.out| <= Wanted(r.call, r.total))
    && (r.AtHead? ==> r.count2 <= cap && |r.out| < Wanted(r.call, r.total))
    && (r.AtCopy? ==> r.slot < cap && r.j < FIELDS && |r.out| < Wanted(r.call, r.total))
  }

  /** One micro-step of push after the opening fetch_add. */
  function StepWriter(s: System): System
    requires InBounds(s)
  {
    var m := s.mem;
    match s.writer
    case Idle => s
    case LoadHead(k) => s.(writer := StoreField(k, m.head, 0))
    case StoreField(k, pos, j) =>
      s.(mem := m.(buf := m.buf[pos := CopyField(m.buf[pos], k, j)]),
         writer := if j + 1 < FIELDS then StoreField(k, pos, j + 1) else StoreHead(k, pos))
    case StoreHead(k, pos) => s.(mem := m.(head := (pos + 1) % m.cap), writer := LoadCount(k))
    case LoadCount(k) => s.(writer := StoreCount(k, m.count))
    case StoreCount(k, current) =>
      s.(mem := if current < m.cap then m.(count := current + 1) else m, writer := Publish(k))
    case Publish(k) =>
      s.(mem := m.(seqlock := m.seqlock + 1), writer := Idle, history := s.history + [k])
  }

  /** One micro-step of a reader; `done` is the number of completed pushes. */
  function StepReader(m: Shared, done: nat, r: Reader): Reader
    requires m.cap > 0 && |m.buf| == m.cap && m.head < m.cap && m.count <= m.cap
    requires ReaderInBounds(r, m.cap)
  {
    match r
    case AtSeq(call, began) =>
      if m.seqlock % 2 == 1 then r else AtCount(call, began, m.seqlock)
    case AtCount(call, began, seq1) =>
      if m.count == 0 then Returned(call, began, done, []) else AtIndex(call, began, seq1, m.count, [])
    case AtIndex(call, began, seq1, total, out) =>
      if |out| < Wanted(call, total) then AtHead(call, began, seq1, total, out, m.count)
      else if m.seqlock == seq1 then Returned(call, began, done, out)
      else AtSeq(call, began)
    case AtHead(call, began, seq1, total, out, count2) =>
      var logical := total - Wanted(call, total) + |out|;
      AtCopy(call, began, seq1, total, out, LogicalToPhysical(m.head, count2, logical, m.cap), ZERO_KLINE, 0)
    case AtCopy(call, began, seq1, total, out, slot, part, j) =>
      var part' := CopyField(part, m.buf[slot], j);
      if j + 1 < FIELDS then AtCopy(call, began, seq1, total, out, slot, part', j + 1)
      else AtIndex(call, began, seq1, total, out + [part'])
    case Returned(_, _, _, _) => r
  }

  /** One scheduled step. A choice that is not enabled leaves the state alone. */
  function Step(s: System, e: Event): (s': System)
    requires InBounds(s)
    ensures InBounds(s')
  {
    match e
    case BeginPush(k) =>
      if s.writer.Idle? then s.(mem := s.mem.(seqlock := s.mem.seqlock + 1), writer := LoadHead(k)) else s
    case WriterStep => StepWriter(s)
    case BeginRead(tid, call) =>
      if tid in s.readers && !s.readers[tid].Returned? then s
      else s.(readers := s.readers[tid := AtSeq(call, |s.history|)])
    case ReaderStep(tid) =>
      if tid !in s.readers then s
      else s.(readers := s.readers[tid := StepReader(s.mem, |s.history|, s.readers[tid])])
  }

  function Run(s: System, events: seq<Event>): (s': System)
    requires InBounds(s)
    ensures InBounds(s')
    decreases |events|
  {
    if events == [] then s else Run(Step(s, events[0]), events[1..])
  }

  // -------------------------------------------------------------------------
  // What the buffer means
  // -------------------------------------------------------------------------

  /** What a call must return when the completed pushes are `h`. */
  ghost function Expected(h: seq<Kline>, cap: nat, call: Call): seq<Kline> {
    Suffix(h, Wanted(call, Min(|h|, cap)))
  }

  /** Slots hold their pushes for every retained push except those in slot `skip`. */
  ghost predicate Holds(buf: seq<Kline>, h: seq<Kline>, skip: int)
    requires |buf| > 0
  {
    forall p: nat | |h| - |buf| <= p < |h| && Slot(p, |buf|) != skip :: buf[Slot(p, |buf|)] == h[p]
  }

  /** Head, count and slots describe exactly the last `cap` of `h`. */
  ghost predicate IsRing(m: Shared, h: seq<Kline>) {
    && m.cap > 0 && |m.buf| == m.cap
    && m.head == Slot(|h|, m.cap)
    && m.count == Min(|h|, m.cap)
    && Holds(m.buf, h, -1)
  }

  ghost predicate WriterInv(s: System)
    requires InBounds(s)
  {
    var m, h := s.mem, s.history;
    var next := Slot(|h|, m.cap);
    && (m.seqlock % 2 == 1 <==> !s.writer.Idle?)
    && match s.writer
       case Idle => IsRing(m, h)
       case LoadHead(k) => IsRing(m, h)
       case StoreField(k, pos, j) =>
         && pos == next == m.head && m.count == Min(|h|, m.cap)
         && Holds(m.buf, h, next) && AgreeBelow(m.buf[next], k, j)
       case StoreHead(k, pos) =>
         && pos == next && m.count == Min(|h|, m.cap)
         && Holds(m.buf, h, next) && m.buf[next] == k
       case LoadCount(k) =>
         && m.head == Slot(|h| + 1, m.cap) && m.count == Min(|h|, m.cap)
         && Holds(m.buf, h, next) && m.buf[next] == k
       case StoreCount(k, current) =>
         && m.head == Slot(|h| + 1, m.cap) && m.count == current == Min(|h|, m.cap)
         && Holds(m.buf, h, next) && m.buf[next] == k
       case Publish(k) => IsRing(m, h + [k])
  }

  /** The element a reader copies next, once the memory is the one it started from. */
  ghost predicate Progress(m: Shared, h: seq<Kline>, call: Call, total: nat, out: seq<Kline>) {
    && total == m.count == Min(|h|, m.cap) && total > 0
    && |out| <= Wanted(call, total)
    && out == h[|h| - Wanted(call, total)..][..|out|]
  }

  /** Either the lock word moved past the one the reader saw, and it will retry,
      or everything it has read belongs to the present history. */
  ghost predicate ReaderInv(m: Shared, h: seq<Kline>, r: Reader) {
    && r.began <= |h|
    && (r.AtCount? || r.AtIndex? || r.AtHead? || r.AtCopy? ==>
          r.seq1 % 2 == 0 && r.seq1 <= m.seqlock)
    && match r
       case AtSeq(_, _) => true
       case AtCount(_, _, _) => true
       case AtIndex(call, _, seq1, total, out) =>
         seq1 == m.seqlock ==> Progress(m, h, call, total, out)
       case AtHead(call, _, seq1, total, out, count2) =>
         seq1 == m.seqlock ==> Progress(m, h, call, total, out) && count2 == m.count
       case AtCopy(call, _, seq1, total, out, slot, part, j) =>
         seq1 == m.seqlock ==>
           && Progress(m, h, call, total, out) && |out| < Wanted(call, total)
           && AgreeBelow(part, h[|h| - Wanted(call, total) + |out|], j)
           && m.cap > 0 && slot == Slot(|h| - Wanted(call, total) + |out|, m.cap)
       case Returned(call, began, ended, result) =>
         began <= ended <= |h| && result == Expected(h[..ended], m.cap, call)
  }

  ghost predicate Inv(s: System) {
    && InBounds(s)
    && WriterInv(s)
    && forall t <- s.readers :: ReaderInv(s.mem, s.history, s.readers[t])
  }

  // -------------------------------------------------------------------------
  // The invariant is kept
  // -------------------------------------------------------------------------

  lemma CopyExtends(dst: Kline, src: Kline, j: nat)
    requires j < FIELDS && AgreeBelow(dst, src, j)
    ensures AgreeBelow(CopyField(dst, src, j), src, j + 1)
    ensures j + 1 == FIELDS ==> CopyField(dst, src, j) == src
  {
  }

  /** Overwriting the oldest slot and counting the push makes a ring of h + [k]. */
  lemma RingAfterPush(m: Shared, h: seq<Kline>, k: Kline)
    requires m.cap > 0 && |m.buf| == m.cap
    requires m.head == Slot(|h| + 1, m.cap) && m.count == Min(|h| + 1, m.cap)
    requires Holds(m.buf, h, Slot(|h|, m.cap)) && m.buf[Slot(|h|, m.cap)] == k
    ensures IsRing(m, h + [k])
  {
    var h' := h + [k];
    forall p: nat | |h'| - m.cap <= p < |h'|
      ensures m.buf[Slot(p, m.cap)] == h'[p]
    {
      if p < |h| {
        SlotsDistinct(p, |h|, m.cap);
      }
    }
  }

  lemma StepWriterKeepsInv(s: System)
    requires Inv(s)
    ensures WriterInv(StepWriter(s))
  {
    match s.writer
    case StoreField(k, pos, j) => StoreFieldKeepsInv(s);
    case StoreHead(k, pos) => StoreHeadKeepsInv(s);
    case StoreCount(k, current) => StoreCountKeepsInv(s);
    case _ => OtherStoreKeepsInv(s);
  }

  lemma StoreFieldKeepsInv(s: System)
    requires Inv(s) && s.writer.StoreField?
    ensures WriterInv(StepWriter(s))
  {
    hide CopyField, AgreeBelow;
    CopyExtends(s.mem.buf[s.writer.pos], s.writer.k, s.writer.j);
  }

  lemma StoreHeadKeepsInv(s: System)
    requires Inv(s) && s.writer.StoreHead?
    ensures WriterInv(StepWriter(s))
  {
    hide CopyField, AgreeBelow, Slot, ReaderInv;
    SlotNext(|s.history|, s.mem.cap);
  }

  lemma StoreCountKeepsInv(s: System)
    requires Inv(s) && s.writer.StoreCount?
    ensures WriterInv(StepWriter(s))
  {
    hide CopyField, AgreeBelow, Slot, ReaderInv;
    RingAfterPush(StepWriter(s).mem, s.history, s.writer.k);
  }

  lemma OtherStoreKeepsInv(s: System)
    requires Inv(s) && !s.writer.StoreField? && !s.writer.StoreHead? && !s.writer.StoreCount?
    ensures WriterInv(StepWriter(s))
  {
    hide CopyField, Slot, ReaderInv;
  }

  /** A writer step never disturbs a reader: while one is in flight the lock word is odd. */
  lemma WriterKeepsReader(s: System, s': System, r: Reader)
    requires Inv(s) && InBounds(s') && s'.mem.cap == s.mem.cap
    requires s' == StepWriter(s) || (s.writer.Idle? && exists k :: s' == Step(s, BeginPush(k)))
    requires ReaderInv(s.mem, s.history, r)
    ensures ReaderInv(s'.mem, s'.history, r)
  {
    if r.Returned? {
      assert s'.history[..r.ended] == s.history[..r.ended];
    }
  }

  /** A reader about to return with an unchanged lock word has the whole answer. */
  lemma ReturnIsExpected(m: Shared, h: seq<Kline>, r: Reader)
    requires r.AtIndex? && ReaderInBounds(r, m.cap)
    requires Progress(m, h, r.call, r.total, r.out) && |r.out| == Wanted(r.call, r.total)
    ensures r.out == Expected(h[..|h|], m.cap, r.call)
  {
    assert h[..|h|] == h;
  }

  /** The index computed from the reloaded head and count is the wanted push's slot. */
  lemma HeadKeepsInv(m: Shared, h: seq<Kline>, r: Reader)
    requires r.AtHead? && m.cap > 0 && |m.buf| == m.cap && m.head < m.cap && m.count <= m.cap
    requires ReaderInBounds(r, m.cap) && ReaderInv(m, h, r)
    requires r.seq1 == m.seqlock ==> IsRing(m, h)
    ensures ReaderInv(m, h, StepReader(m, |h|, r))
  {
    if r.seq1 == m.seqlock {
      LogicalSlot(|h|, m.count, r.total - Wanted(r.call, r.total) + |r.out|, m.cap);
    }
  }

  lemma CopyKeepsInv(m: Shared, h: seq<Kline>, r: Reader)
    requires r.AtCopy? && m.cap > 0 && |m.buf| == m.cap && m.head < m.cap && m.count <= m.cap
    requires ReaderInBounds(r, m.cap) && ReaderInv(m, h, r)
    requires r.seq1 == m.seqlock ==> IsRing(m, h)
    ensures ReaderInv(m, h, StepReader(m, |h|, r))
  {
    if r.seq1 == m.seqlock {
      var lo := |h| - Wanted(r.call, r.total);
      assert m.buf[r.slot] == h[lo + |r.out|];
      CopyExtends(r.part, m.buf[r.slot], r.j);
      assert h[lo..][|r.out|] == h[lo + |r.out|];
      assert h[lo..][..|r.out| + 1] == h[lo..][..|r.out|] + [h[lo..][|r.out|]];
    }
  }

  lemma ReaderKeepsInv(m: Shared, h: seq<Kline>, r: Reader)
    requires m.cap > 0 && |m.buf| == m.cap && m.head < m.cap && m.count <= m.cap
    requires ReaderInBounds(r, m.cap) && ReaderInv(m, h, r)
    requires m.seqlock % 2 == 0 ==> IsRing(m, h)
    requires m.count == 0 ==> h == []
    ensures ReaderInv(m, h, StepReader(m, |h|, r))
  {
    match r
    case AtHead(_, _, _, _, _, _) => HeadKeepsInv(m, h, r);
    case AtCopy(_, _, _, _, _, _, _, _) => CopyKeepsInv(m, h, r);
    case AtIndex(call, _, seq1, total, out) =>
      if |out| == Wanted(call, total) && m.seqlock == seq1 {
        ReturnIsExpected(m, h, r);
      }
    case AtCount(_, _, _) => assert h[..|h|] == h;
    case _ =>
  }

  lemma WriterStepKeepsInv(s: System)
    requires Inv(s)
    ensures Inv(Step(s, WriterStep)) && s.history <= Step(s, WriterStep).history
  {
    StepWriterKeepsInv(s);
    forall t <- s.readers { WriterKeepsReader(s, Step(s, WriterStep), s.readers[t]); }
  }

  lemma BeginPushKeepsInv(s: System, k: Kline)
    requires Inv(s)
    ensures Inv(Step(s, BeginPush(k))) && s.history <= Step(s, BeginPush(k)).history
  {
    if s.writer.Idle? {
      forall t <- s.readers { WriterKeepsReader(s, Step(s, BeginPush(k)), s.readers[t]); }
    }
  }

  lemma StepKeepsInv(s: System, e: Event)
    requires Inv(s)
    ensures Inv(Step(s, e))
    ensures s.history <= Step(s, e).history
  {
    match e
    case ReaderStep(tid) =>
      if tid in s.readers {
        ReaderKeepsInv(s.mem, s.history, s.readers[tid]);
      }
    case BeginRead(_, _) =>
    case WriterStep => WriterStepKeepsInv(s);
    case BeginPush(k) => BeginPushKeepsInv(s, k);
  }

  lemma {:induction false} RunKeepsInv(s: System, events: seq<Event>)
    requires Inv(s)
    ensures Inv(Run(s, events)) && s.history <= Run(s, events).history
    ensures Run(s, events).mem.cap == s.mem.cap
    decreases |events|
  {
    if events != [] {
      StepKeepsInv(s, events[0]);
      RunKeepsInv(Step(s, events[0]), events[1..]);
    }
  }

  lemma InitInv(cap: nat)
    requires cap > 0
    ensures Inv(Init(cap))
  {
  }

  // -------------------------------------------------------------------------
  // Main results
  // -------------------------------------------------------------------------

  /** The last `size` elements of h. */
  ghost predicate IsTail(result: seq<Kline>, h: seq<Kline>, size: int) {
    0 <= size <= |h| && result == h[|h| - size..]
  }

  /** Linearizability: whatever the interleaving, a returned call holds exactly the
      last candles of the history of completed pushes at one moment between its
      first and its last step, namely the moment of its last load: all that are retained
      for a snapshot of 0, otherwise as many as were asked for and are retained; and the
      very last for latest, if there is one. */
  lemma SnapshotsAreConsistent(cap: nat, events: seq<Event>, tid: nat)
    requires cap > 0
    requires tid in Run(Init(cap), events).readers && Run(Init(cap), events).readers[tid].Returned?
    ensures
      var s := Run(Init(cap), events);
      var r := s.readers[tid];
      && r.began <= r.ended <= |s.history|
      && var h, retained := s.history[..r.ended], Min(r.ended, cap);
         match r.call
         case Snapshot(n) => IsTail(r.result, h, if n == 0 then retained else Min(n, retained))
         case Latest => IsTail(r.result, h, if r.ended == 0 then 0 else 1)
  {
    InitInv(cap);
    RunKeepsInv(Init(cap), events);
  }

  /** Steps a reader still needs when no push is in flight: the rest of its pass, and
      one whole pass more when the lock word it saw is already stale. */
  ghost function Rank(m: Shared, r: Reader): nat
    requires ReaderInBounds(r, m.cap)
  {
    var pass := 3 + 10 * m.cap;
    match r
    case AtSeq(_, _) => pass
    case AtCount(_, _, seq1) => (pass - 1) + (if seq1 == m.seqlock then 0 else pass + 1)
    case AtIndex(call, _, seq1, total, out) =>
      1 + 10 * (Wanted(call, total) - |out|) + (if seq1 == m.seqlock then 0 else pass + 1)
    case AtHead(call, _, seq1, total, out, _) =>
      10 * (Wanted(call, total) - |out|) + (if seq1 == m.seqlock then 0 else pass + 1)
    case AtCopy(call, _, seq1, total, out, _, _, j) =>
      10 * (Wanted(call, total) - |out|) - 1 - j + (if seq1 == m.seqlock then 0 else pass + 1)
    case Returned(_, _, _, _) => 0
  }

  /** One step of a reader that finds an even lock word brings its return closer. */
  lemma StepLowersRank(m: Shared, done: nat, r: Reader)
    requires m.cap > 0 && |m.buf| == m.cap && m.head < m.cap && m.count <= m.cap && m.seqlock % 2 == 0
    requires ReaderInBounds(r, m.cap) && !r.Returned?
    ensures ReaderInBounds(StepReader(m, done, r), m.cap)
    ensures Rank(m, StepReader(m, done, r)) < Rank(m, r)
  {
    hide CopyField, LogicalToPhysical;
  }

  /** The retry loop is not stuck: with no push in flight, any reader left to run
      alone returns. */
  lemma {:induction false} ReaderFinishesAlone(s: System, tid: nat) returns (events: seq<Event>)
    requires Inv(s) && s.writer.Idle? && tid in s.readers
    ensures forall e <- events :: e == ReaderStep(tid)
    ensures tid in Run(s, events).readers && Run(s, events).readers[tid].Returned?
    decreases Rank(s.mem, s.readers[tid])
  {
    hide StepReader, Rank, IsRing, ReaderInv;
    if s.readers[tid].Returned? {
      events := [];
    } else {
      var s' := Step(s, ReaderStep(tid));
      StepKeepsInv(s, ReaderStep(tid));
      StepLowersRank(s.mem, |s.history|, s.readers[tid]);
      var rest := ReaderFinishesAlone(s', tid);
      events := [ReaderStep(tid)] + rest;
    }
  }
}
