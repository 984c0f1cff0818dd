/** What software reads back from a ring in memory: the slots of a queue do not overlap, a store
    outside the queue does not disturb it, and a store into the slot at the tail appends. */
module RingMemory {
  import opened Bits
  import opened Common
  import opened Interrupts

  // ---------------------------------------------------------------- distinct slots

  /** The base has no bits where the index is ORed in. */
  predicate Aligned(r: Ring, entryLg: nat) { Low(r.ppn * PAGE_SIZE, r.Lg() + entryLg) == 0 }

  lemma {:induction false} OrAbsorbs(x: nat, b: nat)
    requires Low(Shr(x, b), 1) == 1
    ensures Or(x, Pow2(b)) == x
  {
    if b > 0 { OrAbsorbs(x / 2, b - 1); } else { OrOne(x); }
  }

  lemma OrOne(x: nat)
    requires x % 2 == 1
    ensures Or(x, 1) == x
  {
    assert Or(x / 2, 0) == x / 2;
  }

  lemma {:induction false} SetBit(x: nat, n: nat) returns (b: nat)
    requires Low(x, n) != 0
    ensures b < n && Low(Shr(x, b), 1) == 1
  {
    if x % 2 == 1 {
      b := 0;
      assert Low(x, 1) == 1;
    } else {
      b := SetBit(x / 2, n - 1);
      b := b + 1;
    }
  }

  /** Different indices name different slots exactly when the base is aligned to the queue's size. */
  lemma SlotsDistinctIff(r: Ring, entryLg: nat)
    requires r.log2szm1 < 32 && 4 <= entryLg <= 5
    ensures Aligned(r, entryLg) <==>
            forall i: nat, j: nat | i < j < r.Entries() :: r.SlotAddr(i, Pow2(entryLg)) != r.SlotAddr(j, Pow2(entryLg))
  {
    var size, base, n := Pow2(entryLg), r.ppn * PAGE_SIZE, r.Lg();
    if Aligned(r, entryLg) {
      forall i: nat, j: nat | i < j < r.Entries() ensures r.SlotAddr(i, size) != r.SlotAddr(j, size) {
        SlotAddress(r, entryLg, i);
        SlotAddress(r, entryLg, j);
        TimesMono(i, j, size);
      }
    } else {
      var b := SetBit(base, n + entryLg);
      PageClear(r.ppn, b);
      Pow2Split(b - entryLg, entryLg);
      Pow2Mono(b - entryLg, n);
      OrAbsorbs(base, b);
      Pow2Mono(0, b - entryLg);
      assert r.SlotAddr(0, size) == r.SlotAddr(Pow2(b - entryLg), size);
    }
  }

  lemma TimesMono(i: nat, j: nat, size: nat)
    requires i < j && size > 0
    ensures i * size < j * size
  {
    PositiveMultiple(j - i, size);
    assert j * size == i * size + (j - i) * size;
  }

  lemma TwiceProduct(p: nat, q: nat)
    ensures (2 * p) * q == 2 * (p * q)
  {
  }

  lemma {:induction false} Pow2Split(a: nat, b: nat)
    ensures Pow2(a + b) == Pow2(a) * Pow2(b)
  {
    if a > 0 {
      Pow2Split(a - 1, b);
      TwiceProduct(Pow2(a - 1), Pow2(b));
    }
  }

  lemma PageClear(ppn: nat, b: nat)
    ensures Low(Shr(ppn * PAGE_SIZE, b), 1) == 1 ==> b >= 12
  {
    if b < 12 {
      assert Pow2(12) == 4096 by { Pow2Plus8(0); Pow2Plus8(4); }
      ShrOfMultiple(ppn, 12, 0);
      LowZeroBelow(ppn * PAGE_SIZE, b + 1, 12);
      LowSplit(ppn * PAGE_SIZE, b, 1);
    }
  }

  lemma SlotAddress(r: Ring, entryLg: nat, i: nat)
    requires Aligned(r, entryLg) && i < r.Entries()
    ensures r.SlotAddr(i, Pow2(entryLg)) == r.ppn * PAGE_SIZE + i * Pow2(entryLg)
  {
    Pow2Split(r.Lg(), entryLg);
    TimesMono(i, r.Entries(), Pow2(entryLg));
    OrIsPlus(r.ppn * PAGE_SIZE, i * Pow2(entryLg), r.Lg() + entryLg);
  }

  // ---------------------------------------------------------------- reading a queue

  /** How many bytes a store writes. */
  function Bytes(op: StoreOp): nat {
    match op case FaultStore(_, _) => FQ_ENTRY_SZ case PageStore(_, _) => PQ_ENTRY_SZ case MsiStore(_, _) => 4 case FenceStore(_, _) => 4
  }

  predicate Overlaps(op: StoreOp, addr: nat, size: nat) { op.addr < addr + size && addr < op.addr + Bytes(op) }

  /** The last store that touched the `size` bytes at `addr`: a reader finds a record there if that
      store wrote just these bytes. */
  function LastAt(stores: seq<StoreOp>, addr: nat, size: nat): Option<StoreOp> {
    if stores == [] then None
    else
      var last := stores[|stores| - 1];
      if Overlaps(last, addr, size) then Some(last) else LastAt(stores[..|stores| - 1], addr, size)
  }

  lemma LastAfterStore(stores: seq<StoreOp>, op: StoreOp, addr: nat, size: nat)
    ensures LastAt(stores + [op], addr, size) == if Overlaps(op, addr, size) then Some(op) else LastAt(stores, addr, size)
  {
    assert (stores + [op])[..|stores|] == stores;
  }

  /** The records between head and tail. */
  function Used(r: Ring): nat
    requires ValidRing(r, true)
  {
    if r.tail >= r.head then r.tail - r.head else r.tail + r.Entries() - r.head
  }

  /** The slot of the `k`-th record from the head. */
  function Nth(r: Ring, k: nat): nat
    requires ValidRing(r, true) && k < r.Entries()
  {
    if r.head + k >= r.Entries() then r.head + k - r.Entries() else r.head + k
  }

  /** The contents of the queue as software finds it, oldest record first. */
  function Unread(r: Ring, lg: nat, stores: seq<StoreOp>): (u: seq<Option<StoreOp>>)
    requires ValidRing(r, true)
    ensures |u| == Used(r) < r.Entries()
  {
    seq(Used(r), k requires 0 <= k < Used(r) => LastAt(stores, r.SlotAddr(Nth(r, k), Pow2(lg)), Pow2(lg)))
  }

  /** `op` writes no byte of the queue. */
  predicate Outside(r: Ring, lg: nat, op: StoreOp) {
    op.addr + Bytes(op) <= r.ppn * PAGE_SIZE || r.ppn * PAGE_SIZE + r.Entries() * Pow2(lg) <= op.addr
  }

  lemma OutsideMissesSlot(r: Ring, lg: nat, op: StoreOp, i: nat)
    requires Aligned(r, lg) && i < r.Entries() && Outside(r, lg, op)
    ensures !Overlaps(op, r.SlotAddr(i, Pow2(lg)), Pow2(lg))
  {
    SlotAddress(r, lg, i);
    SlotEnd(i, r.Entries(), Pow2(lg));
  }

  lemma SlotEnd(i: nat, n: nat, size: nat)
    requires i < n && size > 0
    ensures i * size + size <= n * size
  {
    assert (i + 1) * size == i * size + size;
    if i + 1 < n { TimesMono(i + 1, n, size); }
  }

  /** A store outside the queue leaves its contents alone. */
  lemma StoreElsewhere(r: Ring, lg: nat, stores: seq<StoreOp>, op: StoreOp)
    requires ValidRing(r, true) && Aligned(r, lg) && Outside(r, lg, op)
    ensures Unread(r, lg, stores + [op]) == Unread(r, lg, stores)
  {
    forall k | 0 <= k < Used(r) ensures Unread(r, lg, stores + [op])[k] == Unread(r, lg, stores)[k] {
      OutsideMissesSlot(r, lg, op, Nth(r, k));
      LastAfterStore(stores, op, r.SlotAddr(Nth(r, k), Pow2(lg)), Pow2(lg));
    }
  }

  lemma SlotsApart(r: Ring, lg: nat, i: nat, j: nat, op: StoreOp)
    requires Aligned(r, lg) && i < r.Entries() && j < r.Entries() && i != j
    requires op.addr == r.SlotAddr(i, Pow2(lg)) && Bytes(op) == Pow2(lg)
    ensures !Overlaps(op, r.SlotAddr(j, Pow2(lg)), Pow2(lg))
  {
    SlotAddress(r, lg, i);
    SlotAddress(r, lg, j);
    if i < j { SlotEnd(i, j, Pow2(lg)); } else { SlotEnd(j, i, Pow2(lg)); }
  }

  /** A record stored at the tail of a queue that is not full appends, and overwrites nothing unread. */
  lemma StoreAtTail(r: Ring, lg: nat, stores: seq<StoreOp>, op: StoreOp)
    requires ValidRing(r, true) && Aligned(r, lg) && !r.Full()
    requires op.addr == r.SlotAddr(r.tail, Pow2(lg)) && Bytes(op) == Pow2(lg)
    ensures var r' := r.(tail := r.Next(r.tail));
            ValidRing(r', true) && Unread(r', lg, stores + [op]) == Unread(r, lg, stores) + [Some(op)]
  {
    hide LastAt, Pow2, Low, Or;
    NextInRing(r, r.tail);
    var r' := r.(tail := r.Next(r.tail));
    forall k | 0 <= k < Used(r') ensures Unread(r', lg, stores + [op])[k] == (Unread(r, lg, stores) + [Some(op)])[k] {
      LastAfterStore(stores, op, r.SlotAddr(Nth(r, k), Pow2(lg)), Pow2(lg));
      if k < Used(r) { SlotsApart(r, lg, r.tail, Nth(r, k), op); }
    }
  }

  /** Moving the head forward by `n` records removes just those. */
  lemma AdvanceHead(r: Ring, lg: nat, stores: seq<StoreOp>, n: nat)
    requires ValidRing(r, true) && n <= Used(r)
    ensures var r' := Advanced(r, r.head + n);
            ValidRing(r', true) && Unread(r', lg, stores) == Unread(r, lg, stores)[n..]
  {
    hide LastAt, Pow2, Low, Or, Used, Nth;
    var r' := Advanced(r, r.head + n);
    HeadAdvances(r, n);
    forall k | 0 <= k < Used(r') ensures Unread(r', lg, stores)[k] == Unread(r, lg, stores)[n..][k] {
      SameSlots(r, r', Nth(r', k), lg);
    }
  }

  lemma SameSlots(r: Ring, s: Ring, i: nat, lg: nat)
    requires s.ppn == r.ppn
    ensures s.SlotAddr(i, Pow2(lg)) == r.SlotAddr(i, Pow2(lg))
  {
  }

  lemma HeadAdvances(r: Ring, n: nat)
    requires ValidRing(r, true) && n <= Used(r)
    ensures var r' := Advanced(r, r.head + n);
            && ValidRing(r', true) && Used(r') == Used(r) - n && Used(r) < r.Entries() == r'.Entries()
            && forall k | 0 <= k < Used(r') :: Nth(r', k) == Nth(r, n + k)
  {
    hide Pow2, Low;
    LowBound(r.head + n, r.Lg());
    LowWraps(r.head + n, r.Lg());
  }

  lemma {:induction false} LowWraps(x: nat, k: nat)
    requires x < 2 * Pow2(k)
    ensures Low(x, k) == if x < Pow2(k) then x else x - Pow2(k)
  {
    if k > 0 { LowWraps(x / 2, k - 1); }
  }
}
