/** Pool allocation by any number of callers at once: loads and compare-and-swaps of the
    availability words and of the link at the chain's end, one a step. */
module PoolProtocol {
  import opened PoolBits
  import opened PoolLayout

  datatype Pc =
    | Idle
    | Scan(p: nat, i: nat)              // about to load the word of subpool i of pool p
    | Try(p: nat, i: nat, seen: Flags)  // about to compare and swap it
    | Grow(p: nat)                      // saw no pool after p, about to link a new one
    | Lost                              // somebody else linked one first

  // size and slots are those of every pool; taken: the slots handed out, in order.
  datatype State = State(size: nat, slots: nat, pools: seq<Words>, callers: seq<Pc>, taken: seq<Slot>)

  // The area a new pool gets is apart from those in use.
  ghost predicate FreshArea(s: State, base: nat) {
    forall p :: 0 <= p < |s.pools| ==> Separate(s.size, s.slots, s.pools[p].base, base)
  }

  ghost predicate Init(s: State) {
    && s.size > 0 && s.slots > 0 && s.pools != []
    && (forall p :: 0 <= p < |s.pools| ==> s.pools[p] == Untouched(s.pools[p].base, s.slots))
    && (forall p, q :: 0 <= p < q < |s.pools| ==> Separate(s.size, s.slots, s.pools[p].base, s.pools[q].base))
    && (forall c :: 0 <= c < |s.callers| ==> s.callers[c].Idle?)
    && s.taken == []
  }

  ghost predicate Step(s: State, c: nat, s': State) {
    && c < |s.callers| == |s'.callers|
    && s'.callers == s.callers[c := s'.callers[c]]
    && s'.size == s.size && s'.slots == s.slots
    && match s.callers[c]
       case Idle => Quiet(s, s') && s'.callers[c] == Scan(0, 0)
       case Scan(p, i) =>
         && p < |s.pools| && Quiet(s, s')
         && s'.callers[c] == (if i >= |s.pools[p].flags| then
                                if p + 1 < |s.pools| then Scan(p + 1, 0) else Grow(p)
                              else if s.pools[p].flags[i] != 0 then Try(p, i, s.pools[p].flags[i])
                              else Scan(p, i + 1))
       case Try(p, i, seen) =>
         && p < |s.pools| && i < |s.pools[p].flags| && seen != 0
         && if s.pools[p].flags[i] == seen then Takes(s, c, s', p, i, seen)
            else Quiet(s, s') && s'.callers[c] == Scan(0, 0)  // from the root again
       case Grow(p) =>
         if p + 1 == |s.pools| then Links(s, c, s', p) else Quiet(s, s') && s'.callers[c] == Lost
       case Lost => false
  }

  ghost predicate Quiet(s: State, s': State) {
    s'.pools == s.pools && s'.taken == s.taken
  }

  ghost predicate Takes(s: State, c: nat, s': State, p: nat, i: nat, seen: Flags)
    requires c < |s'.callers| && p < |s.pools| && i < |s.pools[p].flags| && seen != 0
  {
    && s.pools[p].flags[i] == seen && s'.pools == TakenFrom(s.pools, p, i)
    && s'.taken == s.taken + [Slot(p, i, TopBit(seen))]
    && s'.callers[c] == Idle
  }

  // The new pool hangs at the end of the chain, and the search goes on in it.
  ghost predicate Links(s: State, c: nat, s': State, p: nat)
    requires c < |s'.callers|
  {
    && s'.taken == s.taken && s'.callers[c] == Scan(p + 1, 0)
    && exists base :: FreshArea(s, base) && s'.pools == s.pools + [Untouched(base, s.slots)]
  }

  ghost predicate CallerOk(s: State, pc: Pc) {
    && (pc.Scan? || pc.Grow? ==> pc.p < |s.pools|)
    && (pc.Try? ==> pc.p < |s.pools| && pc.i < |s.pools[pc.p].flags| && pc.seen != 0)
  }

  // Each slot is either free or handed out, and handed out once.
  ghost predicate Inv(s: State) {
    && Laid(s.size, s.slots, s.pools) && s.pools != []
    && (forall slot: Slot :: IsSlot(s.pools, slot) ==> (SlotFree(s.pools, slot) <==> slot !in s.taken))
    && (forall j, k :: 0 <= j < k < |s.taken| ==> s.taken[j] != s.taken[k])
    && (forall j :: 0 <= j < |s.taken| ==> IsSlot(s.pools, s.taken[j]))
    && (forall c :: 0 <= c < |s.callers| ==> CallerOk(s, s.callers[c]))
  }

  ghost predicate Winning(s: State, pc: Pc) {
    && pc.Try? && pc.p < |s.pools| && pc.i < |s.pools[pc.p].flags|
    && s.pools[pc.p].flags[pc.i] == pc.seen
  }

  // A load can be stale, but a swap that succeeds clears one bit that was still set.
  lemma TakeInv(s: State, c: nat, s': State)
    requires Inv(s) && Step(s, c, s') && Winning(s, s.callers[c])
    ensures Inv(s')
  {
    var pc := s.callers[c];
    TakenOnly(s.pools, pc.p, pc.i);
    var taken := Slot(pc.p, pc.i, TopBit(pc.seen));
    forall slot: Slot | IsSlot(s'.pools, slot) ensures SlotFree(s'.pools, slot) <==> slot !in s'.taken {
      assert slot in s'.taken <==> slot in s.taken || slot == taken;
    }
    forall d | 0 <= d < |s'.callers| ensures CallerOk(s', s'.callers[d]) {
      assert CallerOk(s, s.callers[d]);
    }
  }

  lemma LinkInv(s: State, c: nat, s': State)
    requires Inv(s) && Step(s, c, s') && s.callers[c].Grow? && s.callers[c].p + 1 == |s.pools|
    ensures Inv(s')
  {
    var base :| FreshArea(s, base) && s'.pools == s.pools + [Untouched(base, s.slots)];
    forall slot: Slot | IsSlot(s'.pools, slot) ensures SlotFree(s'.pools, slot) <==> slot !in s'.taken {
      if slot.pool < |s.pools| {
        assert IsSlot(s.pools, slot) && (SlotFree(s.pools, slot) <==> slot !in s.taken);
      } else {
        AllFree(slot.bit);
        assert slot !in s.taken;
      }
    }
    forall j | 0 <= j < |s'.taken| ensures IsSlot(s'.pools, s'.taken[j]) {
      assert IsSlot(s.pools, s.taken[j]);
    }
    forall d | 0 <= d < |s'.callers| ensures CallerOk(s', s'.callers[d]) {
      assert CallerOk(s, s.callers[d]);
    }
  }

  lemma QuietInv(s: State, c: nat, s': State)
    requires Inv(s) && Step(s, c, s') && Quiet(s, s')
    ensures Inv(s')
  {
    forall slot: Slot | IsSlot(s'.pools, slot) ensures SlotFree(s'.pools, slot) <==> slot !in s'.taken {
      assert IsSlot(s.pools, slot) && (SlotFree(s.pools, slot) <==> slot !in s.taken);
    }
    forall d | 0 <= d < |s'.callers| ensures CallerOk(s', s'.callers[d]) {
      assert CallerOk(s, s.callers[d]);
    }
  }

  lemma StepInv(s: State, c: nat, s': State)
    requires Inv(s) && Step(s, c, s')
    ensures Inv(s')
  {
    var pc := s.callers[c];
    if Winning(s, pc) {
      TakeInv(s, c, s');
    } else if pc.Grow? && pc.p + 1 == |s.pools| {
      LinkInv(s, c, s');
    } else {
      QuietInv(s, c, s');
    }
  }

  ghost predicate IsRun(ss: seq<State>, cs: seq<nat>) {
    && |ss| == |cs| + 1
    && Init(ss[0])
    && forall n :: 0 <= n < |cs| ==> Step(ss[n], cs[n], ss[n + 1])
  }

  lemma {:induction false} RunInv(ss: seq<State>, cs: seq<nat>, n: nat)
    requires IsRun(ss, cs) && n < |ss|
    ensures Inv(ss[n])
  {
    if n == 0 {
      forall slot: Slot | IsSlot(ss[0].pools, slot) ensures SlotFree(ss[0].pools, slot) {
        AllFree(slot.bit);
      }
    } else {
      RunInv(ss, cs, n - 1);
      StepInv(ss[n - 1], cs[n - 1], ss[n]);
    }
  }

  /** No slot is ever handed out twice, in any interleaving; each success takes exactly one
      free slot and every other slot keeps its state. */
  lemma NeverTwice(ss: seq<State>, cs: seq<nat>, n: nat)
    requires IsRun(ss, cs) && n < |ss|
    ensures forall j, k :: 0 <= j < k < |ss[n].taken| ==> ss[n].taken[j] != ss[n].taken[k]
    ensures n < |cs| && |ss[n + 1].taken| > |ss[n].taken| ==>
              exists slot :: SlotFree(ss[n].pools, slot) && ss[n + 1].taken == ss[n].taken + [slot]
                 && forall other :: SlotFree(ss[n + 1].pools, other) <==> SlotFree(ss[n].pools, other) && other != slot
  {
    RunInv(ss, cs, n);
    if n < |cs| && |ss[n + 1].taken| > |ss[n].taken| {
      TakenOnly(ss[n].pools, ss[n].callers[cs[n]].p, ss[n].callers[cs[n]].i);
    }
  }

  /** In every interleaving, the chain growing as it may, any two blocks handed out lie
      apart, and each lies in its pool's area past the headers. */
  lemma BlocksNeverOverlap(ss: seq<State>, cs: seq<nat>, n: nat)
    requires IsRun(ss, cs) && n < |ss|
    ensures var s := ss[n];
            && (forall j :: 0 <= j < |s.taken| ==> Inside(s.size, s.slots, s.pools, s.taken[j]))
            && (forall j, k :: 0 <= j < k < |s.taken| ==> NoOverlap(s.size, s.slots, s.pools, s.taken[j], s.taken[k]))
  {
    RunInv(ss, cs, n);
    var s := ss[n];
    forall j | 0 <= j < |s.taken| ensures Inside(s.size, s.slots, s.pools, s.taken[j]) {
      SlotInside(s.size, s.slots, s.pools, s.taken[j]);
    }
    forall j, k | 0 <= j < k < |s.taken| ensures NoOverlap(s.size, s.slots, s.pools, s.taken[j], s.taken[k]) {
      SlotsApart(s.size, s.slots, s.pools, s.taken[j], s.taken[k]);
    }
  }

  // ---- progress of the callers together ----

  // The chain and the slots handed out only grow.
  ghost predicate Grown(s: State, s': State) {
    && s.taken <= s'.taken && |s.pools| <= |s'.pools|
    && forall p :: 0 <= p < |s.pools| ==> |s'.pools[p].flags| == |s.pools[p].flags|
  }

  lemma {:induction false} RunGrows(ss: seq<State>, cs: seq<nat>, m: nat, n: nat)
    requires IsRun(ss, cs) && m <= n < |ss|
    ensures Grown(ss[m], ss[n])
  {
    if m < n {
      RunGrows(ss, cs, m, n - 1);
      assert Step(ss[n - 1], cs[n - 1], ss[n]);
      assert Grown(ss[n - 1], ss[n]);
    }
  }

  /** A caller that loses the race for a word loses it to another caller's success: between
      its load and its failed swap some slot of that subpool was handed out. */
  lemma {:induction false} OnlySuccessDelays(ss: seq<State>, cs: seq<nat>, m: nat, n: nat, p: nat, i: nat)
    requires IsRun(ss, cs) && m <= n < |ss| && p < |ss[m].pools| && i < |ss[m].pools[p].flags|
    requires Grown(ss[m], ss[n]) && ss[m].pools[p].flags[i] != ss[n].pools[p].flags[i]
    ensures exists k :: |ss[m].taken| <= k < |ss[n].taken| && ss[n].taken[k].pool == p && ss[n].taken[k].sub == i
  {
    RunGrows(ss, cs, m, n - 1);
    assert Step(ss[n - 1], cs[n - 1], ss[n]);
    if ss[n - 1].pools[p].flags[i] == ss[m].pools[p].flags[i] {
      var last := ss[n].taken[|ss[n - 1].taken|];
      assert last.pool == p && last.sub == i;
    } else {
      OnlySuccessDelays(ss, cs, m, n - 1, p, i);
      var k :| |ss[m].taken| <= k < |ss[n - 1].taken| && ss[n - 1].taken[k].pool == p && ss[n - 1].taken[k].sub == i;
      assert ss[n].taken[k] == ss[n - 1].taken[k];
    }
  }
}
