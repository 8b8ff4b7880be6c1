/** The candle buffer as the object its owner sees between calls: the same ring as
    KlineSeqlock, updated in place. The meaning of head, count and slots is the
    predicate IsRing of that module. */
module KlineBuffer {
  import opened Types
  import opened RingMath
  import opened KlineSeqlock

  class Buffer {
    var buffer: array<Kline>
    var head: nat
    var count: nat
    var seqlock: nat
    /** Every candle pushed so far, oldest first. */
    ghost var history: seq<Kline>

    ghost function Memory(): Shared
      reads this, buffer
    {
      Shared(buffer.Length, buffer[..], head, count, seqlock)
    }

    ghost predicate Valid()
      reads this, buffer
    {
      && seqlock % 2 == 0
      && if buffer.Length == 0 then head == 0 && count == 0 && history == [] else IsRing(Memory(), history)
    }

    constructor (capacity: nat)
      ensures Valid() && fresh(buffer)
      ensures buffer.Length == capacity && history == []
    {
      buffer := new Kline[capacity](_ => ZERO_KLINE);
      head, count, seqlock := 0, 0, 0;
      history := [];
    }

    /** A buffer without capacity has no slot to write. */
    method Push(k: Kline)
      requires Valid() && buffer.Length > 0
      modifies this, buffer
      ensures Valid() && buffer == old(buffer)
      ensures history == old(history) + [k]
      ensures seqlock == old(seqlock) + 2
    {
      seqlock := seqlock + 1;
      var writePos := head;
      buffer[writePos] := k;
      SlotNext(|history|, buffer.Length);
      head := (writePos + 1) % buffer.Length;
      var currentCount := count;
      if currentCount < buffer.Length {
        count := currentCount + 1;
      }
      seqlock := seqlock + 1;
      RingAfterPush(Memory(), history, k);
      history := history + [k];
    }

    /** With no push in flight the first pass of the retry loop succeeds. */
    method Snapshot(n: nat) returns (result: seq<Kline>)
      requires Valid()
      ensures
        var retained := Min(|history|, buffer.Length);
        IsTail(result, history, if n == 0 then retained else Min(n, retained))
    {
      result := [];
      var consistent := false;
      while !consistent
        invariant consistent ==> result == Expected(history, buffer.Length, Call.Snapshot(n))
        decreases !consistent
      {
        var seq1 := seqlock;
        if seq1 % 2 == 0 {
          var currentCount := count;
          if currentCount == 0 {
            return [];
          }
          var numToReturn := if n == 0 || n > currentCount then currentCount else n;
          result := CopyLast(numToReturn, currentCount);
          var seq2 := seqlock;
          consistent := seq1 == seq2;
        }
      }
    }

    /** The copy loop: one logical position after another, oldest first. */
    method CopyLast(wanted: nat, total: nat) returns (result: seq<Kline>)
      requires Valid() && total == count && wanted <= total
      ensures result == Suffix(history, wanted)
    {
      result := [];
      var start := total - wanted;
      for i := 0 to wanted
        invariant result == history[|history| - wanted..][..i]
      {
        var physical := LogicalToPhysical(head, count, start + i, buffer.Length);
        LogicalSlot(|history|, count, start + i, buffer.Length);
        result := result + [buffer[physical]];
      }
    }

    method Latest() returns (result: Option<Kline>)
      requires Valid()
      ensures result == if history == [] then None else Some(history[|history| - 1])
    {
      result := None;
      var consistent := false;
      while !consistent
        invariant consistent ==> history != [] && result == Some(history[|history| - 1])
        decreases !consistent
      {
        var seq1 := seqlock;
        if seq1 % 2 == 0 {
          var currentCount := count;
          if currentCount == 0 {
            return None;
          }
          var physical := LogicalToPhysical(head, count, currentCount - 1, buffer.Length);
          LogicalSlot(|history|, count, currentCount - 1, buffer.Length);
          result := Some(buffer[physical]);
          var seq2 := seqlock;
          consistent := seq1 == seq2;
        }
      }
    }
  }
}
