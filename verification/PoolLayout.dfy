/** Where a pool's blocks lie, and the slots of a chain of pools as values. */
module PoolLayout {
  import opened PoolBits

  const POOL_HEADER: nat := 20    // five words
  const SUBPOOL_HEADER: nat := 8  // two words

  function Subpools(slots: nat): nat { (slots + SLOTS - 1) / SLOTS }

  function DataStart(base: nat, slots: nat): nat {
    base + POOL_HEADER + SUBPOOL_HEADER * Subpools(slots)
  }

  function AreaSize(size: nat, slots: nat): nat {
    POOL_HEADER + SUBPOOL_HEADER * Subpools(slots) + size * (SLOTS * Subpools(slots))
  }

  function DataAddress(base: nat, size: nat, slots: nat, sub: nat): nat {
    DataStart(base, slots) + size * (SLOTS * sub)
  }

  function SlotAddress(base: nat, size: nat, slots: nat, sub: nat, bit: nat): nat {
    DataAddress(base, size, slots, sub) + size * bit
  }

  lemma Distribute(size: nat, a: nat, b: nat)
    ensures size * a + size * b == size * (a + b)
  {
  }

  lemma OneFurther(size: nat, a: nat, b: nat)
    requires a < b
    ensures size * a + size <= size * b
  {
    Distribute(size, a, b - a);
    assert size * (b - a) >= size;
  }

  /** Every block lies in the area the pool was given, past the headers (five words, and two
      for each subpool), and there are at least as many blocks as were asked for, with less
      than a subpool to spare. */
  lemma BlocksInside(base: nat, size: nat, slots: nat, sub: nat, bit: nat)
    requires sub < Subpools(slots) && bit < SLOTS
    ensures DataStart(base, slots) <= SlotAddress(base, size, slots, sub, bit)
    ensures SlotAddress(base, size, slots, sub, bit) + size <= base + AreaSize(size, slots)
    ensures DataStart(base, slots) == base + 5 * 4 + Subpools(slots) * (2 * 4)
    ensures slots <= SLOTS * Subpools(slots) < slots + SLOTS
  {
    Distribute(size, SLOTS * sub, bit);
    OneFurther(size, SLOTS * sub + bit, SLOTS * Subpools(slots));
  }

  /** Blocks of two different slots do not overlap. */
  lemma BlocksApart(base: nat, size: nat, slots: nat, sub: nat, bit: nat, sub': nat, bit': nat)
    requires bit < SLOTS && bit' < SLOTS && (sub, bit) != (sub', bit')
    ensures var a, a' := SlotAddress(base, size, slots, sub, bit), SlotAddress(base, size, slots, sub', bit');
            a + size <= a' || a' + size <= a
  {
    Distribute(size, SLOTS * sub, bit);
    Distribute(size, SLOTS * sub', bit');
    if SLOTS * sub + bit < SLOTS * sub' + bit' {
      OneFurther(size, SLOTS * sub + bit, SLOTS * sub' + bit');
    } else {
      OneFurther(size, SLOTS * sub' + bit', SLOTS * sub + bit);
    }
  }

  // ---- a chain of pools of one shape ----

  // A slot: its pool, counted along the chain, its subpool there, and its bit.
  datatype Slot = Slot(pool: nat, sub: nat, bit: Position)

  // One pool of the chain: its area's address and its availability words.
  datatype Words = Words(base: nat, flags: seq<Flags>)

  function Untouched(base: nat, slots: nat): Words {
    Words(base, seq(Subpools(slots), _ => ALL_FREE))
  }

  ghost predicate Separate(size: nat, slots: nat, a: nat, b: nat) {
    a + AreaSize(size, slots) <= b || b + AreaSize(size, slots) <= a
  }

  ghost predicate Laid(size: nat, slots: nat, pools: seq<Words>) {
    && size > 0 && slots > 0
    && (forall p :: 0 <= p < |pools| ==> |pools[p].flags| == Subpools(slots))
    && (forall p, q :: 0 <= p < q < |pools| ==> Separate(size, slots, pools[p].base, pools[q].base))
  }

  predicate IsSlot(pools: seq<Words>, slot: Slot) {
    slot.pool < |pools| && slot.sub < |pools[slot.pool].flags|
  }

  predicate SlotFree(pools: seq<Words>, slot: Slot) {
    IsSlot(pools, slot) && Free(pools[slot.pool].flags[slot.sub], slot.bit)
  }

  // Where the block of a slot lies.
  function BlockAt(size: nat, slots: nat, pools: seq<Words>, slot: Slot): nat
    requires IsSlot(pools, slot)
  {
    SlotAddress(pools[slot.pool].base, size, slots, slot.sub, slot.bit)
  }

  ghost predicate Inside(size: nat, slots: nat, pools: seq<Words>, a: Slot) {
    && IsSlot(pools, a)
    && DataStart(pools[a.pool].base, slots) <= BlockAt(size, slots, pools, a)
    && BlockAt(size, slots, pools, a) + size <= pools[a.pool].base + AreaSize(size, slots)
  }

  ghost predicate NoOverlap(size: nat, slots: nat, pools: seq<Words>, a: Slot, b: Slot)
    requires IsSlot(pools, a) && IsSlot(pools, b)
  {
    || BlockAt(size, slots, pools, a) + size <= BlockAt(size, slots, pools, b)
    || BlockAt(size, slots, pools, b) + size <= BlockAt(size, slots, pools, a)
  }

  lemma SlotInside(size: nat, slots: nat, pools: seq<Words>, a: Slot)
    requires Laid(size, slots, pools) && IsSlot(pools, a)
    ensures Inside(size, slots, pools, a)
  {
    BlocksInside(pools[a.pool].base, size, slots, a.sub, a.bit);
  }

  /** Blocks of two slots of a chain do not overlap, whatever pools they are in. */
  lemma SlotsApart(size: nat, slots: nat, pools: seq<Words>, a: Slot, b: Slot)
    requires Laid(size, slots, pools) && IsSlot(pools, a) && IsSlot(pools, b) && a != b
    ensures NoOverlap(size, slots, pools, a, b)
  {
    if a.pool == b.pool {
      BlocksApart(pools[a.pool].base, size, slots, a.sub, a.bit, b.sub, b.bit);
    } else {
      SlotInside(size, slots, pools, a);
      SlotInside(size, slots, pools, b);
    }
  }

  // The highest free slot of a subpool taken.
  ghost function TakenFrom(pools: seq<Words>, p: nat, i: nat): seq<Words>
    requires p < |pools| && i < |pools[p].flags| && pools[p].flags[i] != 0
  {
    var w := pools[p].flags[i];
    pools[p := pools[p].(flags := pools[p].flags[i := Clear(w, TopBit(w))])]
  }

  /** Taking one frees nothing and takes nothing else. */
  lemma TakenOnly(pools: seq<Words>, p: nat, i: nat)
    requires p < |pools| && i < |pools[p].flags| && pools[p].flags[i] != 0
    ensures var taken := Slot(p, i, TopBit(pools[p].flags[i]));
            && SlotFree(pools, taken)
            && forall slot :: (IsSlot(TakenFrom(pools, p, i), slot) <==> IsSlot(pools, slot))
                              && (SlotFree(TakenFrom(pools, p, i), slot) <==> SlotFree(pools, slot) && slot != taken)
  {
    var w := pools[p].flags[i];
    var taken := Slot(p, i, TopBit(w));
    forall slot
      ensures IsSlot(TakenFrom(pools, p, i), slot) <==> IsSlot(pools, slot)
      ensures SlotFree(TakenFrom(pools, p, i), slot) <==> SlotFree(pools, slot) && slot != taken
    {
      ClearOne(w, TopBit(w), slot.bit);
    }
  }
}
