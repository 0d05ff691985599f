/** When a caller of the pool can still be served: always, by its own steps alone, unless it
    has lost the race to grow the chain. */
module PoolProgress {
  import opened PoolBits
  import opened PoolLayout
  import opened PoolProtocol

  // ---- runs from a state ----

  ghost predicate Follows(ss: seq<State>, cs: seq<nat>, s: State, s': State) {
    && |ss| == |cs| + 1 && ss[0] == s && ss[|cs|] == s'
    && forall n :: 0 <= n < |cs| ==> Step(ss[n], cs[n], ss[n + 1])
  }

  // Some run in which only c moves leads from s to s'.
  ghost predicate Alone(s: State, c: nat, s': State) {
    exists ss, cs :: Follows(ss, cs, s, s') && forall n :: 0 <= n < |cs| ==> cs[n] == c
  }

  // The same, folded: it opens where Alone is named.
  ghost predicate Leads(s: State, c: nat, s': State) {
    forall t {:trigger Alone(s, c, t)} :: t == s' ==> Alone(s, c, t)
  }

  ghost predicate Open(s0: State, c: nat, s: State) {
    Leads(s0, c, s) && Inv(s) && c < |s.callers| == |s0.callers| && s.taken == s0.taken
    && s.size == s0.size && s.slots == s0.slots
  }

  lemma OpenNow(s: State, c: nat)
    requires Inv(s) && c < |s.callers|
    ensures Open(s, c, s)
  {
    var cs: seq<nat> := [];
    assert Follows([s], cs, s, s) && Alone(s, c, s);
  }

  lemma LeadsStep(s0: State, c: nat, s: State, s': State)
    requires Leads(s0, c, s) && Step(s, c, s')
    ensures Leads(s0, c, s')
  {
    assert Alone(s0, c, s);
    var ss, cs :| Follows(ss, cs, s0, s) && forall n :: 0 <= n < |cs| ==> cs[n] == c;
    var ss', cs' := ss + [s'], cs + [c];
    forall n | 0 <= n < |cs'| ensures Step(ss'[n], cs'[n], ss'[n + 1]) {
      if n < |cs| {
        assert Step(ss[n], cs[n], ss[n + 1]);
      }
    }
    assert Follows(ss', cs', s0, s') && Alone(s0, c, s');
  }

  // A step of c that only moves c.
  lemma Goes(s0: State, c: nat, s: State, pc: Pc) returns (s': State)
    requires Open(s0, c, s) && Step(s, c, s.(callers := s.callers[c := pc]))
    ensures s' == s.(callers := s.callers[c := pc]) && Open(s0, c, s')
  {
    s' := s.(callers := s.callers[c := pc]);
    StepInv(s, c, s');
    LeadsStep(s0, c, s, s');
  }

  ghost predicate Served(s0: State, c: nat, s: State) {
    && Leads(s0, c, s) && |s.callers| == |s0.callers| && c < |s.callers| && s.callers[c] == Idle
    && exists slot :: s.taken == s0.taken + [slot] && slot !in s0.taken
  }

  // The swap succeeds when nobody has changed the word.
  lemma Swaps(s0: State, c: nat, s: State) returns (s': State)
    requires Open(s0, c, s) && Winning(s, s.callers[c])
    ensures Served(s0, c, s')
  {
    var pc := s.callers[c];
    assert CallerOk(s, pc);
    var slot := Slot(pc.p, pc.i, TopBit(pc.seen));
    s' := s.(pools := TakenFrom(s.pools, pc.p, pc.i), callers := s.callers[c := Idle], taken := s.taken + [slot]);
    assert Step(s, c, s');
    LeadsStep(s0, c, s, s');
    TakenOnly(s.pools, pc.p, pc.i);
    assert s'.taken == s0.taken + [slot] && slot !in s0.taken;
  }

  lemma Tries(s0: State, c: nat, s: State, p: nat, i: nat) returns (s': State)
    requires Open(s0, c, s) && s.callers[c] == Scan(p, i)
    requires p < |s.pools| && i < |s.pools[p].flags| && s.pools[p].flags[i] != 0
    ensures Served(s0, c, s')
  {
    var t := Goes(s0, c, s, Try(p, i, s.pools[p].flags[i]));
    s' := Swaps(s0, c, t);
  }

  // An address past every pool.
  lemma {:induction false} RoomFor(s: State, n: nat) returns (base: nat)
    requires n <= |s.pools|
    ensures forall p :: 0 <= p < n ==> Separate(s.size, s.slots, s.pools[p].base, base)
    ensures forall p :: 0 <= p < n ==> s.pools[p].base + AreaSize(s.size, s.slots) <= base
  {
    if n == 0 {
      base := 0;
    } else {
      base := RoomFor(s, n - 1);
      var end := s.pools[n - 1].base + AreaSize(s.size, s.slots);
      if base < end {
        base := end;
      }
    }
  }

  // At the end of the chain a new pool is linked, and serves.
  lemma Grows(s0: State, c: nat, s: State) returns (s': State)
    requires Open(s0, c, s) && |s.pools| > 0 && s.callers[c] == Grow(|s.pools| - 1)
    ensures Served(s0, c, s')
  {
    var base := RoomFor(s, |s.pools|);
    assert FreshArea(s, base);
    var n := |s.pools|;
    var t := s.(pools := s.pools + [Untouched(base, s.slots)], callers := s.callers[c := Scan(n, 0)]);
    assert Step(s, c, t);
    StepInv(s, c, t);
    LeadsStep(s0, c, s, t);
    assert t.pools[n].flags[0] == ALL_FREE;
    s' := Tries(s0, c, t, n, 0);
  }

  // The search goes on to the first word with a bit set, or to the end.
  lemma {:induction false} Scans(s0: State, c: nat, s: State, p: nat, i: nat) returns (s': State)
    requires Open(s0, c, s) && s.callers[c] == Scan(p, i) && p < |s.pools|
    ensures Served(s0, c, s')
    decreases |s.pools| - p, if i < |s.pools[p].flags| then |s.pools[p].flags| - i else 0
  {
    if i < |s.pools[p].flags| {
      if s.pools[p].flags[i] != 0 {
        s' := Tries(s0, c, s, p, i);
      } else {
        var t := Goes(s0, c, s, Scan(p, i + 1));
        s' := Scans(s0, c, t, p, i + 1);
      }
    } else if p + 1 < |s.pools| {
      var t := Goes(s0, c, s, Scan(p + 1, 0));
      s' := Scans(s0, c, t, p + 1, 0);
    } else {
      var t := Goes(s0, c, s, Grow(p));
      s' := Grows(s0, c, t);
    }
  }

  // Somebody else has linked a pool where c is about to.
  predicate Beaten(s: State, pc: Pc) { pc.Lost? || (pc.Grow? && pc.p + 1 != |s.pools|) }

  /** From every state, by its own steps alone, a caller gets a slot nobody has, unless it has
      lost the race to grow the chain. */
  lemma ServesItself(s: State, c: nat) returns (s': State)
    requires Inv(s) && c < |s.callers| && !Beaten(s, s.callers[c])
    ensures Alone(s, c, s') && c < |s'.callers| && s'.callers[c] == Idle
    ensures exists slot :: s'.taken == s.taken + [slot] && slot !in s.taken
  {
    OpenNow(s, c);
    assert CallerOk(s, s.callers[c]);
    match s.callers[c]
    case Idle =>
      var t := Goes(s, c, s, Scan(0, 0));
      s' := Scans(s, c, t, 0, 0);
    case Scan(p, i) => s' := Scans(s, c, s, p, i);
    case Try(p, i, seen) =>
      if Winning(s, s.callers[c]) {
        s' := Swaps(s, c, s);
      } else {
        var t := Goes(s, c, s, Scan(0, 0));
        s' := Scans(s, c, t, 0, 0);
      }
    case Grow(p) => s' := Grows(s, c, s);
    assert Alone(s, c, s');
  }

  /** One that has lost it is never served: it stays beaten whatever the others do. */
  lemma BeatenStays(s: State, c: nat, d: nat, s': State)
    requires Inv(s) && Step(s, d, s') && c < |s.callers| && Beaten(s, s.callers[c])
    ensures c < |s'.callers| && Beaten(s', s'.callers[c])
    ensures d == c ==> s'.taken == s.taken
  {
    assert CallerOk(s, s.callers[c]);
  }
}
