/** Index arithmetic of a ring of `c` slots. */
module RingMath {

  /** The slot that the p-th push (counting from 0) lands in: p wrapped to [0, c). */
  ghost function Slot(p: nat, c: nat): (r: nat)
    requires c > 0
    ensures r < c
  {
    if p < c then p else Slot(p - c, c)
  }

  /** The code's `%` never sees more than one lap of excess. */
  lemma WrapOnce(x: nat, c: nat)
    requires c > 0 && x < 2 * c
    ensures x % c == if x < c then x else x - c
  {
    if x >= c {
      assert x == (x / c) * c + x % c;
    }
  }

  lemma {:induction false} SlotAdd(p: nat, d: nat, c: nat)
    requires d < c
    ensures Slot(p + d, c) == if Slot(p, c) + d < c then Slot(p, c) + d else Slot(p, c) + d - c
  {
    if p >= c {
      SlotAdd(p - c, d, c);
    }
  }

  /** Advancing the wrapped head by one follows the push count. */
  lemma SlotNext(p: nat, c: nat)
    requires c > 0
    ensures (Slot(p, c) + 1) % c == Slot(p + 1, c)
  {
    WrapOnce(Slot(p, c) + 1, c);
    if c > 1 {
      SlotAdd(p, 1, c);
    }
  }

  /** Two pushes less than one lap apart land in different slots. */
  lemma SlotsDistinct(p: nat, q: nat, c: nat)
    requires p < q < p + c
    ensures Slot(p, c) != Slot(q, c)
  {
    SlotAdd(p, q - p, c);
  }

  /** The index the buffer computes for the `logical`-th oldest of `count` candles. */
  function LogicalToPhysical(head: nat, count: nat, logical: nat, c: nat): (r: nat)
    requires c > 0 && count <= c
    ensures r < c
  {
    ((head + c - count) % c + logical) % c
  }

  /** The slot of the `logical`-th oldest of the last `count` of `total` pushes,
      whose wrapped head is all the buffer keeps of `total`. */
  lemma LogicalSlot(total: nat, count: nat, logical: nat, c: nat)
    requires count <= c && count <= total && logical < count
    ensures LogicalToPhysical(Slot(total, c), count, logical, c) == Slot(total - count + logical, c)
  {
    WrapOnce(Slot(total, c) + c - count, c);
    if count < c {
      SlotAdd(total - count, count, c);
    }
    var oldest := (Slot(total, c) + c - count) % c;
    assert oldest == Slot(total - count, c);
    WrapOnce(oldest + logical, c);
    SlotAdd(total - count, logical, c);
  }
}
