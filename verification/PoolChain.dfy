/** Allocation from a chain of pools by one caller at a time, with the chain growing at its
    end. */
module PoolChain {
  import opened PoolBits
  import opened PoolLayout

  class Pool {
    const size: nat
    const slots: nat
    const base: nat
    const nsubpools: nat
    const availFlags: array<Flags>
    const data: seq<nat>   // where each subpool's blocks start
    var chain: Pool?
    ghost const rank: nat  // the pool's place in its chain

    // base: the address of the area the allocator answers.
    constructor (size: nat, slots: nat, base: nat, ghost rank: nat)
      requires size > 0 && slots > 0
      ensures this.size == size && this.slots == slots && this.base == base && this.rank == rank
      ensures chain == null && fresh(availFlags) && Shaped()
      ensures availFlags[..] == seq(nsubpools, _ => ALL_FREE)
    {
      var n := (slots + SLOTS - 1) / SLOTS;
      var next := base + POOL_HEADER + SUBPOOL_HEADER * n;
      var starts: seq<nat> := [];
      while |starts| < n
        invariant |starts| <= n
        invariant next == DataAddress(base, size, slots, |starts|)
        invariant forall j :: 0 <= j < |starts| ==> starts[j] == DataAddress(base, size, slots, j)
      {
        Distribute(size, SLOTS * |starts|, SLOTS);
        starts := starts + [next];
        next := next + SLOTS * size;
      }
      this.size, this.slots, this.base, this.rank := size, slots, base, rank;
      nsubpools, data, chain := n, starts, null;
      availFlags := new Flags[n](_ => ALL_FREE);
      new;
      assert availFlags[..] == seq(nsubpools, _ => ALL_FREE);
    }

    ghost predicate Shaped() {
      && size > 0 && slots > 0
      && nsubpools == Subpools(slots) == availFlags.Length == |data|
      && forall i :: 0 <= i < nsubpools ==> data[i] == DataAddress(base, size, slots, i)
    }

    // The first subpool with a free slot.
    method FirstOpen() returns (i: nat)
      requires Shaped()
      ensures i <= nsubpools && (i < nsubpools ==> availFlags[i] != 0)
      ensures forall j :: 0 <= j < i ==> availFlags[j] == 0
    {
      i := 0;
      while i < nsubpools
        invariant i <= nsubpools
        invariant forall j :: 0 <= j < i ==> availFlags[j] == 0
      {
        if availFlags[i] != 0 {
          return;
        }
        i := i + 1;
      }
    }

    // Takes the highest free slot of subpool i.
    method TakeTop(i: nat) returns (ptr: nat)
      requires Shaped() && i < nsubpools && availFlags[i] != 0
      modifies availFlags
      ensures availFlags[..] == old(availFlags[..])[i := Clear(old(availFlags[i]), TopBit(old(availFlags[i])))]
      ensures ptr == SlotAddress(base, size, slots, i, TopBit(old(availFlags[i])))
    {
      var bitPosition := TopBit(availFlags[i]);
      availFlags[i] := Clear(availFlags[i], bitPosition);
      ptr := data[i] + size * (bitPosition);
    }
  }

  ghost function Arrays(spine: seq<Pool>): set<object> {
    set p | p in spine :: p.availFlags as object
  }

  // A chain: each pool points at the next, knows its place, and owns its flags.
  ghost predicate IsChain(spine: seq<Pool>)
    reads spine
  {
    && spine != []
    && (forall i :: 0 <= i < |spine| ==> LinkOk(spine, i))
    && (forall i, j :: 0 <= i < j < |spine| ==> spine[i].availFlags != spine[j].availFlags)
  }

  ghost predicate LinkOk(spine: seq<Pool>, i: nat)
    requires i < |spine|
    reads spine
  {
    && spine[i].Shaped() && spine[i].rank == i
    && spine[i].size == spine[0].size && spine[i].slots == spine[0].slots
    && spine[i].chain == (if i < |spine| - 1 then spine[i + 1] else null)
  }

  // Slot (sub, its highest free bit) of the flags `before` was taken, at ptr.
  ghost predicate Took(p: Pool, before: seq<Flags>, sub: nat, ptr: nat)
    reads p.availFlags
  {
    && sub < |before| && before[sub] != 0
    && p.availFlags[..] == before[sub := Clear(before[sub], TopBit(before[sub]))]
    && ptr == SlotAddress(p.base, p.size, p.slots, sub, TopBit(before[sub]))
  }

  ghost predicate NoneLeft(flags: seq<Flags>) {
    forall i :: 0 <= i < |flags| ==> flags[i] == 0
  }

  /** The block returned is the highest free slot of the first open subpool of the first
      pool that has one; when every pool is full the chain grows by one pool, in the area
      given, and the block comes from there. No other slot changes. */
  method Allocate(p: Pool, ghost spine: seq<Pool>, ghost at: nat, area: nat)
    returns (ptr: nat, ghost spine': seq<Pool>, ghost where: nat, ghost sub: nat)
    requires IsChain(spine) && at < |spine| && p == spine[at]
    requires forall i :: 0 <= i < at ==> NoneLeft(spine[i].availFlags[..])
    modifies spine, Arrays(spine)
    ensures IsChain(spine') && spine <= spine' && where <= |spine| && where < |spine'|
    ensures forall i :: 0 <= i < where ==> NoneLeft(old(spine[i].availFlags[..]))
    ensures forall i :: 0 <= i < |spine| && i != where ==> spine[i].availFlags[..] == old(spine[i].availFlags[..])
    ensures where < |spine| ==> spine' == spine && Took(spine[where], old(spine[where].availFlags[..]), sub, ptr)
    ensures where == |spine| ==>
              && |spine'| == |spine| + 1 && fresh(spine'[where]) && fresh(spine'[where].availFlags)
              && spine'[where].base == area
              && Took(spine'[where], seq(spine'[where].nsubpools, _ => ALL_FREE), sub, ptr)
    decreases |spine| - at
  {
    assert LinkOk(spine, at);
    var i := p.FirstOpen();
    if i < p.nsubpools {
      ptr := p.TakeTop(i);
      spine', where, sub := spine, at, i;
      forall j | 0 <= j < |spine| ensures LinkOk(spine, j) {
        assert old(LinkOk(spine, j));
      }
    } else if p.chain != null {
      ptr, spine', where, sub := Allocate(p.chain, spine, at + 1, area);
    } else {
      ptr, spine' := Grow(p, spine, area);
      where, sub := |spine|, 0;
    }
  }

  method Grow(p: Pool, ghost spine: seq<Pool>, area: nat) returns (ptr: nat, ghost spine': seq<Pool>)
    requires IsChain(spine) && p == spine[|spine| - 1]
    modifies p
    ensures |spine'| == |spine| + 1 && spine <= spine' && IsChain(spine')
    ensures var q := spine'[|spine|];
            && fresh(q) && fresh(q.availFlags) && q.base == area
            && Took(q, seq(q.nsubpools, _ => ALL_FREE), 0, ptr)
    ensures forall i :: 0 <= i < |spine| ==> spine[i].availFlags[..] == old(spine[i].availFlags[..])
  {
    assert LinkOk(spine, |spine| - 1) && LinkOk(spine, 0);
    var chained := new Pool(p.size, p.slots, area, |spine|);
    p.chain := chained;
    spine' := spine + [chained];
    ptr := chained.TakeTop(0);
    forall i | 0 <= i < |spine'| ensures LinkOk(spine', i) {
      assert i < |spine| ==> old(LinkOk(spine, i));
    }
  }

  // ---- many calls ----

  // The chain as a value.
  ghost function Chain(spine: seq<Pool>): (pools: seq<Words>)
    reads Arrays(spine)
    ensures |pools| == |spine|
  {
    seq(|spine|, i requires 0 <= i < |spine| reads Arrays(spine) => Words(spine[i].base, spine[i].availFlags[..]))
  }

  // The chain a call finds its slot in: as it was, or with one new pool.
  ghost function Extended(pools: seq<Words>, grown: bool, area: nat, slots: nat): seq<Words> {
    if grown then pools + [Untouched(area, slots)] else pools
  }

  method AllocateOne(p: Pool, ghost spine: seq<Pool>, area: nat)
    returns (ptr: nat, ghost spine': seq<Pool>, ghost grown: bool, ghost where: nat, ghost sub: nat)
    requires IsChain(spine) && p == spine[0]
    modifies spine, Arrays(spine)
    ensures IsChain(spine') && spine <= spine'
    ensures forall i :: |spine| <= i < |spine'| ==> fresh(spine'[i]) && fresh(spine'[i].availFlags)
    ensures var pools := Extended(old(Chain(spine)), grown, area, p.slots);
            && where < |pools| && sub < |pools[where].flags| && pools[where].flags[sub] != 0
            && Chain(spine') == TakenFrom(pools, where, sub)
            && ptr == BlockAt(p.size, p.slots, pools, Slot(where, sub, TopBit(pools[where].flags[sub])))
  {
    ptr, spine', where, sub := Allocate(p, spine, 0, area);
    grown := where == |spine|;
    assert LinkOk(spine', where) && LinkOk(spine', 0);
    ghost var pools := Extended(old(Chain(spine)), grown, area, p.slots);
    assert forall i :: 0 <= i < |spine'| ==> spine'[i].base == pools[i].base;
    assert Chain(spine') == TakenFrom(pools, where, sub);
  }

  // The slots handed out one after another, and those already held, are not free.
  ghost predicate Issued(held: set<Slot>, pools: seq<Words>, taken: seq<Slot>) {
    && (forall slot :: slot in held ==> IsSlot(pools, slot) && !SlotFree(pools, slot) && slot !in taken)
    && (forall j :: 0 <= j < |taken| ==> IsSlot(pools, taken[j]) && !SlotFree(pools, taken[j]))
    && (forall j, k :: 0 <= j < k < |taken| ==> taken[j] != taken[k])
  }

  ghost predicate Addresses(size: nat, slots: nat, pools: seq<Words>, taken: seq<Slot>, ptrs: seq<nat>) {
    && |ptrs| == |taken|
    && forall j :: 0 <= j < |taken| ==> IsSlot(pools, taken[j]) && ptrs[j] == BlockAt(size, slots, pools, taken[j])
  }

  // The areas still to be given out are apart from those in use and from each other.
  ghost predicate AreasLeft(size: nat, slots: nat, pools: seq<Words>, areas: seq<nat>) {
    && Laid(size, slots, pools)
    && (forall p, a :: 0 <= p < |pools| && 0 <= a < |areas| ==> Separate(size, slots, pools[p].base, areas[a]))
    && (forall a, b :: 0 <= a < b < |areas| ==> Separate(size, slots, areas[a], areas[b]))
  }

  lemma AreasStep(size: nat, slots: nat, pools: seq<Words>, areas: seq<nat>, grown: bool, where: nat, sub: nat)
    requires AreasLeft(size, slots, pools, areas) && areas != []
    requires var pools' := Extended(pools, grown, areas[0], slots);
             where < |pools'| && sub < |pools'[where].flags| && pools'[where].flags[sub] != 0
    ensures AreasLeft(size, slots, TakenFrom(Extended(pools, grown, areas[0], slots), where, sub), areas[1..])
  {
  }

  lemma IssuedStep(held: set<Slot>, size: nat, slots: nat, pools: seq<Words>, taken: seq<Slot>, ptrs: seq<nat>,
                   grown: bool, area: nat, where: nat, sub: nat)
    requires Issued(held, pools, taken) && Addresses(size, slots, pools, taken, ptrs)
    requires var pools' := Extended(pools, grown, area, slots);
             where < |pools'| && sub < |pools'[where].flags| && pools'[where].flags[sub] != 0
    ensures var pools' := Extended(pools, grown, area, slots);
            var slot := Slot(where, sub, TopBit(pools'[where].flags[sub]));
            && Issued(held, TakenFrom(pools', where, sub), taken + [slot])
            && Addresses(size, slots, TakenFrom(pools', where, sub), taken + [slot],
                         ptrs + [BlockAt(size, slots, pools', slot)])
  {
    var pools' := Extended(pools, grown, area, slots);
    var slot := Slot(where, sub, TopBit(pools'[where].flags[sub]));
    TakenOnly(pools', where, sub);
    forall other | IsSlot(pools, other)
      ensures IsSlot(pools', other) && (SlotFree(pools', other) <==> SlotFree(pools, other))
    {
    }
    forall other | other in held ensures other !in taken + [slot] {
      assert !SlotFree(pools, other);
    }
  }

  /** Any number of calls, the areas for new pools apart from those in use and from each
      other: the blocks answered are pairwise apart, apart from every block held before, and
      each lies in its pool's area past the headers. */
  method AllocateEach(p: Pool, ghost spine: seq<Pool>, areas: seq<nat>, ghost held: set<Slot>)
    returns (ptrs: seq<nat>, ghost spine': seq<Pool>, ghost taken: seq<Slot>)
    requires IsChain(spine) && p == spine[0] && AreasLeft(p.size, p.slots, Chain(spine), areas)
    requires forall slot :: slot in held ==> IsSlot(Chain(spine), slot) && !SlotFree(Chain(spine), slot)
    modifies spine, Arrays(spine)
    ensures IsChain(spine') && spine <= spine'
    ensures |ptrs| == |areas| && Addresses(p.size, p.slots, Chain(spine'), taken, ptrs)
    ensures forall j :: 0 <= j < |ptrs| ==> Inside(p.size, p.slots, Chain(spine'), taken[j])
    ensures forall j, k :: 0 <= j < k < |ptrs| ==> ptrs[j] + p.size <= ptrs[k] || ptrs[k] + p.size <= ptrs[j]
    ensures forall j, slot :: 0 <= j < |ptrs| && slot in held ==>
              IsSlot(Chain(spine'), slot) && NoOverlap(p.size, p.slots, Chain(spine'), slot, taken[j])
  {
    ptrs, spine', taken := [], spine, [];
    while |ptrs| < |areas|
      invariant |ptrs| <= |areas| && IsChain(spine') && spine <= spine'
      invariant forall i :: |spine| <= i < |spine'| ==> fresh(spine'[i]) && fresh(spine'[i].availFlags)
      invariant AreasLeft(p.size, p.slots, Chain(spine'), areas[|ptrs|..])
      invariant Issued(held, Chain(spine'), taken)
      invariant Addresses(p.size, p.slots, Chain(spine'), taken, ptrs)
    {
      var area := areas[|ptrs|];
      ghost var pools := Chain(spine');
      ghost var grown, where, sub;
      var ptr;
      ptr, spine', grown, where, sub := AllocateOne(p, spine', area);
      AreasStep(p.size, p.slots, pools, areas[|ptrs|..], grown, where, sub);
      IssuedStep(held, p.size, p.slots, pools, taken, ptrs, grown, area, where, sub);
      ghost var word := Extended(pools, grown, area, p.slots)[where].flags[sub];
      ptrs, taken := ptrs + [ptr], taken + [Slot(where, sub, TopBit(word))];
    }
    AllApart(p.size, p.slots, Chain(spine'), taken, held);
  }

  lemma AllApart(size: nat, slots: nat, pools: seq<Words>, taken: seq<Slot>, held: set<Slot>)
    requires Laid(size, slots, pools) && Issued(held, pools, taken)
    ensures forall j :: 0 <= j < |taken| ==> Inside(size, slots, pools, taken[j])
    ensures forall j, k :: 0 <= j < k < |taken| ==> NoOverlap(size, slots, pools, taken[j], taken[k])
    ensures forall j, slot :: 0 <= j < |taken| && slot in held ==> NoOverlap(size, slots, pools, slot, taken[j])
  {
    forall j | 0 <= j < |taken| ensures Inside(size, slots, pools, taken[j]) {
      SlotInside(size, slots, pools, taken[j]);
    }
    forall j, k | 0 <= j < k < |taken| ensures NoOverlap(size, slots, pools, taken[j], taken[k]) {
      SlotsApart(size, slots, pools, taken[j], taken[k]);
    }
    forall j, slot | 0 <= j < |taken| && slot in held ensures NoOverlap(size, slots, pools, slot, taken[j]) {
      SlotsApart(size, slots, pools, slot, taken[j]);
    }
  }
}
