/** Where a job of the staircase is, told from its past alone: the priority it arrived with
    and the time it used each time it came back. */
module StaircasePasts {
  import opened Scheduling
  import opened StaircaseBlocks
  import opened StaircaseRuns

  // uses: the time used of each slice handed back, in order.
  datatype Past = Past(prio: Priority, uses: seq<nat>)

  ghost function Noted(h: map<nat, Past>, s: Stairs, e: Event): map<nat, Past>
    requires Enabled(s, e)
  {
    match e
    case Arrive(pid, prio) => h[pid := Past(prio, [])]
    case Return(remaining) =>
      var je := s.out.value;
      if je.pid in h
      then h[je.pid := h[je.pid].(uses := h[je.pid].uses + [je.lastTimeslice - remaining])]
      else h
    case _ => h
  }

  ghost function Pasts(s: Stairs, es: seq<Event>, h: map<nat, Past>): map<nat, Past>
    requires Legal(s, es)
    decreases |es|
  {
    if es == [] then h else Pasts(Step(s, es[0]), es[1..], Noted(h, s, es[0]))
  }

  ghost function Total(uses: seq<nat>): nat { if uses == [] then 0 else Total(uses[..|uses| - 1]) + uses[|uses| - 1] }

  // The slices handed back since the one that used up a quantum, or since the job arrived.
  ghost function Hops(uses: seq<nat>, ts: nat): nat
    requires ts > 0
  {
    if uses == [] || (uses[|uses| - 1] > 0 && Total(uses) % ts == 0) then 0 else 1 + Hops(uses[..|uses| - 1], ts)
  }

  // What the past says of the entry: its own level is that of its priority, it has what its
  // uses leave of a quantum, and it is one level further down for each of them.
  ghost predicate Fits(e: Entry, past: Past, ts: nat)
    requires ts > 0
  {
    && e.originalLevel == StartLevel(past.prio)
    && e.timeslice == ts - Total(past.uses) % ts
    && e.lastLevel == Min(StartLevel(past.prio) + Hops(past.uses, ts), LAYERS - 1)
  }

  ghost predicate Told(e: Entry, h: map<nat, Past>, ts: nat)
    requires ts > 0
  {
    e.pid in h && Fits(e, h[e.pid], ts)
  }

  ghost predicate BlockTold(b: Block, h: map<nat, Past>, ts: nat)
    requires Shaped(b) && ts > 0
  {
    forall l, i :: 0 <= l < LAYERS && 0 <= i < |b.queues[l]| ==> Told(b.queues[l][i], h, ts)
  }

  ghost predicate AllTold(s: Stairs, h: map<nat, Past>)
    requires BothShaped(s.st) && s.st.timeslice > 0
  {
    && BlockTold(s.st.active, h, s.st.timeslice) && BlockTold(s.st.exhausted, h, s.st.timeslice)
    && (s.out.Some? ==> Told(s.out.value, h, s.st.timeslice))
  }

  // ---- one return ----

  lemma TotalOn(uses: seq<nat>, used: nat)
    ensures Total(uses + [used]) == Total(uses) + used
  {
    assert (uses + [used])[..|uses|] == uses;
  }

  lemma HopsOn(uses: seq<nat>, used: nat, ts: nat)
    requires ts > 0
    ensures Hops(uses + [used], ts) == if used > 0 && (Total(uses) + used) % ts == 0 then 0 else 1 + Hops(uses, ts)
  {
    TotalOn(uses, used);
    assert (uses + [used])[..|uses|] == uses;
  }

  lemma Remains(total: nat, used: nat, ts: nat)
    requires ts > 0 && total % ts + used <= ts
    ensures (total + used) % ts == if total % ts + used == ts then 0 else total % ts + used
  {
    var q, r := total / ts, total % ts;
    assert total == q * ts + r;
    if r + used == ts {
      assert total + used == (q + 1) * ts;
      Multiple(q + 1, 0, ts);
    } else {
      Multiple(q, r + used, ts);
    }
  }

  lemma Multiple(q: nat, r: nat, ts: nat)
    requires r < ts
    ensures (q * ts + r) % ts == r
  {
    var d, m := (q * ts + r) / ts, (q * ts + r) % ts;
    assert q * ts + r == d * ts + m;
    OneQuotient(q, r, d, m, ts);
  }

  lemma OneQuotient(q: int, r: nat, d: int, m: nat, ts: nat)
    requires r < ts && m < ts && q * ts + r == d * ts + m
    ensures r == m
  {
    assert (q - d) * ts == m - r;
    if q > d {
      Larger(q - d, ts);
    } else if q < d {
      Larger(d - q, ts);
    }
  }

  lemma Larger(k: int, ts: nat)
    requires k >= 1
    ensures k * ts >= ts
  {
  }

  lemma SteppedFits(je: Entry, past: Past, used: nat, ts: nat)
    requires ts > 0 && Fits(je, past, ts) && used <= je.timeslice
    ensures Fits(Stepped(je, used, ts), past.(uses := past.uses + [used]), ts)
  {
    TotalOn(past.uses, used);
    HopsOn(past.uses, used, ts);
    Remains(Total(past.uses), used, ts);
  }

  // ---- nobody else is meant ----

  lemma QueuedIn(b: Block, l: nat, i: nat)
    requires Shaped(b) && l < LAYERS && i < |b.queues[l]|
    ensures b.queues[l][i].pid in BlockPids(b)
  {
    QueuePidsMember(b.queues[l], i);
    LevelPidsSplit(b.queues, l);
  }

  lemma OthersQueued(s: Stairs, b: Block, l: nat, i: nat)
    requires Wf(s) && (b == s.st.active || b == s.st.exhausted) && l < LAYERS && i < |b.queues[l]|
    ensures b.queues[l][i].pid in s.seen
    ensures s.out.Some? ==> b.queues[l][i].pid != s.out.value.pid
  {
    var p := b.queues[l][i].pid;
    QueuedIn(b, l, i);
    assert p in AllPids(s);
    assert p in OutPids(s.out) ==> AllPids(s)[p] >= 2;
  }

  // A past that is the same for the pids of a block.
  lemma BlockStillTold(s: Stairs, b: Block, h: map<nat, Past>, h': map<nat, Past>)
    requires Wf(s) && (b == s.st.active || b == s.st.exhausted) && BlockTold(b, h, s.st.timeslice)
    requires forall p :: p in s.seen && p in h && (s.out.Some? ==> p != s.out.value.pid) ==> p in h' && h'[p] == h[p]
    ensures BlockTold(b, h', s.st.timeslice)
  {
    forall l, i | 0 <= l < LAYERS && 0 <= i < |b.queues[l]| ensures Told(b.queues[l][i], h', s.st.timeslice) {
      OthersQueued(s, b, l, i);
      assert Told(b.queues[l][i], h, s.st.timeslice);
    }
  }

  lemma AppendTold(b: Block, l: nat, e: Entry, h: map<nat, Past>, ts: nat)
    requires Shaped(b) && ts > 0 && l < LAYERS && BlockTold(b, h, ts) && Told(e, h, ts)
    ensures BlockTold(Append(b, l, e), h, ts)
  {
  }

  // ---- each kind of step ----

  lemma ArriveTold(s: Stairs, pid: nat, prio: Priority, h: map<nat, Past>)
    requires Wf(s) && Enabled(s, Arrive(pid, prio)) && AllTold(s, h)
    requires s.out.Some? ==> s.out.value.pid in s.seen
    ensures AllTold(Step(s, Arrive(pid, prio)), Noted(h, s, Arrive(pid, prio)))
  {
    var h' := Noted(h, s, Arrive(pid, prio));
    var l := StartLevel(prio);
    BlockStillTold(s, s.st.active, h, h');
    BlockStillTold(s, s.st.exhausted, h, h');
    AppendTold(s.st.active, l, Entry(pid, s.st.timeslice, 0, l, l), h', s.st.timeslice);
  }

  lemma TakeTold(st: Staircase, l: nat, h: map<nat, Past>)
    requires BothShaped(st) && st.timeslice > 0 && Eligible(st.active, l) && BlockTold(st.active, h, st.timeslice)
    ensures BlockTold(Take(st, l).0.active, h, st.timeslice) && Told(Take(st, l).1, h, st.timeslice)
    ensures Take(st, l).0.exhausted == st.exhausted
  {
    var b := Take(st, l).0.active;
    assert Told(st.active.queues[l][0], h, st.timeslice);
    forall m, i | 0 <= m < LAYERS && 0 <= i < |b.queues[m]| ensures Told(b.queues[m][i], h, st.timeslice) {
      assert Told(st.active.queues[m][if m == l then i + 1 else i], h, st.timeslice);
    }
  }

  lemma DispatchTold(s: Stairs, h: map<nat, Past>)
    requires Wf(s) && Enabled(s, Dispatch) && AllTold(s, h)
    ensures AllTold(Step(s, Dispatch), h)
  {
    if Runnable(s.st.active) {
      TakeTold(s.st, FirstEligible(s.st.active), h);
    } else if Runnable(s.st.exhausted) {
      TakeTold(Swapped(s.st), FirstEligible(s.st.exhausted), h);
    }
  }

  lemma ReturnTold(s: Stairs, remaining: nat, h: map<nat, Past>)
    requires Wf(s) && Enabled(s, Return(remaining)) && AllTold(s, h)
    ensures AllTold(Step(s, Return(remaining)), Noted(h, s, Return(remaining)))
  {
    var je, ts, h' := s.out.value, s.st.timeslice, Noted(h, s, Return(remaining));
    var used := je.lastTimeslice - remaining;
    var e := BackTold(je, h, used, ts);
    assert h' == h[je.pid := h[je.pid].(uses := h[je.pid].uses + [used])];
    OthersTold(s, h, h');
    SpendTold(s.st.active, je.lastLevel, used, h', ts);
    AppendTold(s.st.exhausted, e.lastLevel, e, h', ts);
  }

  // The entry that comes back, and everybody else.
  lemma BackTold(je: Entry, h: map<nat, Past>, used: nat, ts: nat) returns (e: Entry)
    requires ts > 0 && Told(je, h, ts) && used <= je.timeslice
    ensures e == Stepped(je, used, ts)
    ensures Told(e, h[je.pid := h[je.pid].(uses := h[je.pid].uses + [used])], ts)
  {
    e := Stepped(je, used, ts);
    SteppedFits(je, h[je.pid], used, ts);
  }

  lemma OthersTold(s: Stairs, h: map<nat, Past>, h': map<nat, Past>)
    requires Wf(s) && s.out.Some? && AllTold(s, h)
    requires forall p :: p in h && p != s.out.value.pid ==> p in h' && h'[p] == h[p]
    ensures BlockTold(s.st.active, h', s.st.timeslice) && BlockTold(s.st.exhausted, h', s.st.timeslice)
  {
    BlockStillTold(s, s.st.active, h, h');
    BlockStillTold(s, s.st.exhausted, h, h');
  }

  lemma SpendTold(b: Block, l: nat, used: nat, h: map<nat, Past>, ts: nat)
    requires Shaped(b) && ts > 0 && l < LAYERS && used <= b.timeslices[l] && BlockTold(b, h, ts)
    ensures BlockTold(Spend(b, l, used), h, ts)
  {
  }

  lemma StepTold(s: Stairs, e: Event, h: map<nat, Past>)
    requires Wf(s) && Enabled(s, e) && AllTold(s, h)
    ensures BothShaped(Step(s, e).st) && Step(s, e).st.timeslice == s.st.timeslice
    ensures AllTold(Step(s, e), Noted(h, s, e))
  {
    StepWf(s, e);
    match e
    case Arrive(pid, prio) =>
      assert s.out.Some? ==> s.out.value.pid in AllPids(s);
      ArriveTold(s, pid, prio, h);
    case Dispatch => DispatchTold(s, h);
    case Return(remaining) => ReturnTold(s, remaining, h);
    case Finish =>
  }

  lemma {:induction false} RunTold(s: Stairs, es: seq<Event>, h: map<nat, Past>)
    requires Wf(s) && Legal(s, es) && AllTold(s, h)
    ensures Wf(Run(s, es)) && AllTold(Run(s, es), Pasts(s, es, h))
    decreases |es|
  {
    if es != [] {
      StepTold(s, es[0], h);
      StepWf(s, es[0]);
      RunTold(Step(s, es[0]), es[1..], Noted(h, s, es[0]));
    }
  }

  /** After any run of a new scheduler, for every job queued or out: its own level is that of
      the priority it arrived with, what it has left of its quantum is a timeslice less what
      it used since it last used one up, and it is at its own level right after that, and one
      level further down, to the last, for each slice it handed back since. A queued job is
      in the queue of that level. */
  lemma ToldByThePast(ts: nat, es: seq<Event>)
    requires ts > 0 && Legal(Init(ts), es)
    ensures var s, h := Run(Init(ts), es), Pasts(Init(ts), es, map[]);
            && BothShaped(s.st)
            && (forall l, i :: 0 <= l < LAYERS && 0 <= i < |s.st.active.queues[l]| ==>
                  var e := s.st.active.queues[l][i]; e.lastLevel == l && e.pid in h && Fits(e, h[e.pid], ts))
            && (forall l, i :: 0 <= l < LAYERS && 0 <= i < |s.st.exhausted.queues[l]| ==>
                  var e := s.st.exhausted.queues[l][i]; e.lastLevel == l && e.pid in h && Fits(e, h[e.pid], ts))
            && (s.out.Some? ==> s.out.value.pid in h && Fits(s.out.value, h[s.out.value.pid], ts))
  {
    InitWf(ts);
    RunWf(Init(ts), es);
    RunTold(Init(ts), es, map[]);
    var s, h := Run(Init(ts), es), Pasts(Init(ts), es, map[]);
    forall l, i | 0 <= l < LAYERS && 0 <= i < |s.st.active.queues[l]|
      ensures var e := s.st.active.queues[l][i]; e.lastLevel == l && e.pid in h && Fits(e, h[e.pid], ts)
    {
      assert EntryWf(s.st.active.queues[l][i], l, ts) && Told(s.st.active.queues[l][i], h, ts);
    }
    forall l, i | 0 <= l < LAYERS && 0 <= i < |s.st.exhausted.queues[l]|
      ensures var e := s.st.exhausted.queues[l][i]; e.lastLevel == l && e.pid in h && Fits(e, h[e.pid], ts)
    {
      assert EntryWf(s.st.exhausted.queues[l][i], l, ts) && Told(s.st.exhausted.queues[l][i], h, ts);
    }
  }
}
