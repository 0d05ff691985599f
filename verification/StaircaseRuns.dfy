/** Whole runs of one core's staircase: arrivals, selections, returns and completions in
    any order, with at most one job out at a time. */
module StaircaseRuns {
  import opened Scheduling
  import opened StaircaseBlocks

  // charged totals the time taken from level budgets so far.
  datatype Stairs = Stairs(st: Staircase, out: Option<Entry>, seen: set<nat>, charged: nat)

  datatype Event =
    | Arrive(pid: nat, prio: Priority)
    | Dispatch
    | Return(remaining: nat)
    | Finish

  function Init(ts: nat): Stairs { Stairs(Fresh(ts), None, {}, 0) }

  // ---- the pids a block holds, with multiplicity ----

  ghost function QueuePids(q: seq<Entry>): multiset<nat> {
    if q == [] then multiset{} else multiset{q[0].pid} + QueuePids(q[1..])
  }

  ghost function LevelPids(qs: seq<seq<Entry>>): multiset<nat> {
    if qs == [] then multiset{} else QueuePids(qs[0]) + LevelPids(qs[1..])
  }

  ghost function BlockPids(b: Block): multiset<nat> { LevelPids(b.queues) }

  ghost function OutPids(out: Option<Entry>): multiset<nat> {
    if out.None? then multiset{} else multiset{out.value.pid}
  }

  ghost function AllPids(s: Stairs): multiset<nat> {
    BlockPids(s.st.active) + BlockPids(s.st.exhausted) + OutPids(s.out)
  }

  lemma {:induction false} QueuePidsAppend(q: seq<Entry>, e: Entry)
    ensures QueuePids(q + [e]) == QueuePids(q) + multiset{e.pid}
  {
    if q == [] {
      assert q + [e] == [e];
      assert [e][1..] == [];
    } else {
      assert (q + [e])[1..] == q[1..] + [e];
      QueuePidsAppend(q[1..], e);
    }
  }

  lemma {:induction false} QueuePidsMember(q: seq<Entry>, i: nat)
    requires i < |q|
    ensures q[i].pid in QueuePids(q)
  {
    if i > 0 {
      QueuePidsMember(q[1..], i - 1);
    }
  }

  lemma Between(a: multiset<nat>, b: multiset<nat>, c: multiset<nat>)
    ensures a + (b + c) == b + (a + c)
  {
  }

  lemma {:induction false} LevelPidsSplit(qs: seq<seq<Entry>>, l: nat)
    requires l < |qs|
    ensures LevelPids(qs) == QueuePids(qs[l]) + LevelPids(qs[l := []])
  {
    var rest := qs[1..];
    if l == 0 {
      assert qs[l := []][1..] == rest;
    } else {
      LevelPidsSplit(rest, l - 1);
      assert qs[l := []][1..] == rest[l - 1 := []];
      Between(QueuePids(qs[0]), QueuePids(rest[l - 1]), LevelPids(rest[l - 1 := []]));
    }
  }

  lemma TwiceSet<T>(xs: seq<T>, l: nat, x: T, y: T)
    requires l < |xs|
    ensures xs[l := x][l := y] == xs[l := y]
  {
  }

  lemma LevelPidsUpdate(qs: seq<seq<Entry>>, l: nat, q: seq<Entry>)
    requires l < |qs|
    ensures LevelPids(qs[l := q]) == QueuePids(q) + LevelPids(qs[l := []])
    ensures LevelPids(qs) == QueuePids(qs[l]) + LevelPids(qs[l := []])
  {
    LevelPidsSplit(qs, l);
    LevelPidsSplit(qs[l := q], l);
    TwiceSet(qs, l, q, []);
  }

  lemma {:induction false} NoPids(qs: seq<seq<Entry>>)
    requires forall l :: 0 <= l < |qs| ==> qs[l] == []
    ensures LevelPids(qs) == multiset{}
  {
    if qs != [] {
      NoPids(qs[1..]);
    }
  }

  lemma AppendPids(b: Block, l: nat, e: Entry)
    requires Shaped(b) && l < LAYERS
    ensures BlockPids(Append(b, l, e)) == BlockPids(b) + multiset{e.pid}
  {
    LevelPidsUpdate(b.queues, l, b.queues[l] + [e]);
    QueuePidsAppend(b.queues[l], e);
  }

  lemma TakeHeadPids(b: Block, l: nat)
    requires Shaped(b) && l < LAYERS && b.queues[l] != []
    ensures BlockPids(b) == BlockPids(TakeHead(b, l)) + multiset{b.queues[l][0].pid}
  {
    LevelPidsUpdate(b.queues, l, b.queues[l][1..]);
  }

  // ---- the invariant ----

  // An entry at level l says so, and has some of its quantum left.
  ghost predicate BlockWf(b: Block, ts: nat) {
    && Shaped(b)
    && forall l, i :: 0 <= l < LAYERS && 0 <= i < |b.queues[l]| ==> EntryWf(b.queues[l][i], l, ts)
  }

  ghost predicate EntryWf(e: Entry, l: nat, ts: nat) {
    e.lastLevel == l && e.originalLevel < LAYERS && 0 < e.timeslice <= ts
  }

  ghost predicate OutWf(s: Stairs) {
    s.out.Some? ==>
      && CanReturn(s.st, s.out.value, 0)
      && 0 < s.out.value.lastTimeslice
      && EntryWf(s.out.value, s.out.value.lastLevel, s.st.timeslice)
  }

  // Every pid is in one place, once.
  ghost predicate OnePlace(s: Stairs) {
    forall p :: p in AllPids(s) ==> AllPids(s)[p] == 1 && p in s.seen
  }

  ghost function Budget(st: Staircase): nat { Sum(st.active.timeslices) + Sum(st.exhausted.timeslices) }

  ghost predicate Wf(s: Stairs) {
    && s.st.timeslice > 0
    && BlockWf(s.st.active, s.st.timeslice)
    && BlockWf(s.st.exhausted, s.st.timeslice)
    && OutWf(s)
    && OnePlace(s)
    && Budget(s.st) + s.charged == 2 * LAYERS * 5 * s.st.timeslice
  }

  predicate Enabled(s: Stairs, e: Event) {
    && BothShaped(s.st)
    && match e
       case Arrive(pid, _) => pid > 0 && pid !in s.seen
       case Dispatch => s.out.None?
       case Return(remaining) => s.out.Some? && CanReturn(s.st, s.out.value, remaining)
       case Finish => s.out.Some? && CanReturn(s.st, s.out.value, 0)
  }

  function Step(s: Stairs, e: Event): Stairs
    requires Enabled(s, e)
  {
    match e
    case Arrive(pid, prio) => s.(st := Schedule(s.st, pid, prio), seen := s.seen + {pid})
    case Dispatch =>
      var (st, picked) := Select(s.st);
      s.(st := st, out := picked)
    case Return(remaining) =>
      s.(st := Reschedule(s.st, s.out.value, remaining), out := None,
         charged := s.charged + s.out.value.lastTimeslice - remaining)
    case Finish =>
      s.(st := Unschedule(s.st, s.out.value), out := None, charged := s.charged + s.out.value.lastTimeslice)
  }

  lemma InitWf(ts: nat)
    requires ts > 0
    ensures Wf(Init(ts))
  {
    var b := FullBlock(ts);
    SumConstant(b.timeslices, ts * 5);
    NoPids(b.queues);
  }

  /** No subtraction wraps: whatever part of its slice a job hands back, its quantum and
      its level's budget can pay for the rest. */
  lemma ReturnCannotWrap(s: Stairs, remaining: nat)
    requires Wf(s) && s.out.Some? && remaining <= s.out.value.lastTimeslice
    ensures Enabled(s, Return(remaining)) && Enabled(s, Finish)
  {
  }

  lemma AppendWf(b: Block, l: nat, e: Entry, ts: nat)
    requires BlockWf(b, ts) && l < LAYERS && EntryWf(e, l, ts)
    ensures BlockWf(Append(b, l, e), ts)
  {
  }

  lemma SpendSum(st: Staircase, l: nat, used: nat)
    requires BothShaped(st) && l < LAYERS && used <= st.active.timeslices[l]
    ensures Sum(Spend(st.active, l, used).timeslices) + used == Sum(st.active.timeslices)
  {
    SumUpdate(st.active.timeslices, l, st.active.timeslices[l] - used);
  }

  // An arrival only adds the job to the active block.
  lemma ArriveBlocks(s: Stairs, pid: nat, prio: Priority)
    requires Enabled(s, Arrive(pid, prio))
    ensures var s' := Step(s, Arrive(pid, prio));
            && s'.out == s.out && s'.seen == s.seen + {pid}
            && BlockPids(s'.st.active) == BlockPids(s.st.active) + multiset{pid}
            && BlockPids(s'.st.exhausted) == BlockPids(s.st.exhausted)
  {
    var l := StartLevel(prio);
    AppendPids(s.st.active, l, Entry(pid, s.st.timeslice, 0, l, l));
  }

  lemma ArrivePids(s: Stairs, pid: nat, prio: Priority)
    requires Enabled(s, Arrive(pid, prio))
    ensures AllPids(Step(s, Arrive(pid, prio))) == AllPids(s) + multiset{pid}
  {
    ArriveBlocks(s, pid, prio);
    PidsIn(BlockPids(s.st.active), BlockPids(s.st.exhausted), OutPids(s.out), multiset{pid});
  }

  lemma PidsIn(a: multiset<nat>, x: multiset<nat>, o: multiset<nat>, p: multiset<nat>)
    ensures (a + p) + x + o == a + x + o + p
  {
  }

  lemma ArriveWf(s: Stairs, pid: nat, prio: Priority)
    requires Wf(s) && Enabled(s, Arrive(pid, prio))
    ensures Wf(Step(s, Arrive(pid, prio)))
    ensures AllPids(Step(s, Arrive(pid, prio))) == AllPids(s) + multiset{pid}
  {
    var l := StartLevel(prio);
    AppendWf(s.st.active, l, Entry(pid, s.st.timeslice, 0, l, l), s.st.timeslice);
    ArrivePids(s, pid, prio);
  }

  lemma TakeWf(s: Stairs, l: nat)
    requires Wf(s) && s.out.None? && Eligible(s.st.active, l)
    ensures var (st, je) := Take(s.st, l);
            && Wf(s.(st := st, out := Some(je)))
            && AllPids(s.(st := st, out := Some(je))) == AllPids(s)
  {
    var (st, je) := Take(s.st, l);
    TakeHeadPids(s.st.active, l);
    assert EntryWf(s.st.active.queues[l][0], l, s.st.timeslice);
    assert BlockWf(st.active, st.timeslice) by {
      forall m, i | 0 <= m < LAYERS && 0 <= i < |st.active.queues[m]|
        ensures EntryWf(st.active.queues[m][i], m, st.timeslice)
      {
        assert EntryWf(s.st.active.queues[m][if m == l then i + 1 else i], m, s.st.timeslice);
      }
    }
    assert AllPids(s.(st := st, out := Some(je))) == AllPids(s);
  }

  lemma SwapWf(s: Stairs)
    requires Wf(s) && s.out.None?
    ensures Wf(s.(st := Swapped(s.st))) && AllPids(s.(st := Swapped(s.st))) == AllPids(s)
  {
    var s' := s.(st := Swapped(s.st));
    assert AllPids(s') == AllPids(s);
    assert OnePlace(s');
    assert Budget(s'.st) == Budget(s.st);
  }

  lemma DispatchWf(s: Stairs)
    requires Wf(s) && Enabled(s, Dispatch)
    ensures Wf(Step(s, Dispatch)) && AllPids(Step(s, Dispatch)) == AllPids(s)
  {
    if Runnable(s.st.active) {
      TakeWf(s, FirstEligible(s.st.active));
    } else {
      SwapWf(s);
      if Runnable(s.st.exhausted) {
        TakeWf(s.(st := Swapped(s.st)), FirstEligible(s.st.exhausted));
      }
    }
  }

  lemma SteppedWf(je: Entry, used: nat, ts: nat)
    requires EntryWf(je, je.lastLevel, ts) && je.lastLevel < LAYERS && used <= je.timeslice
    ensures var e := Stepped(je, used, ts); EntryWf(e, e.lastLevel, ts) && e.lastLevel < LAYERS && e.pid == je.pid
  {
  }

  lemma SpendWf(b: Block, l: nat, used: nat, ts: nat)
    requires BlockWf(b, ts) && l < LAYERS && used <= b.timeslices[l]
    ensures BlockWf(Spend(b, l, used), ts) && BlockPids(Spend(b, l, used)) == BlockPids(b)
  {
  }

  // A return only adds the job to the exhausted block.
  lemma ReturnBlocks(s: Stairs, remaining: nat)
    requires Enabled(s, Return(remaining))
    ensures var s' := Step(s, Return(remaining));
            && s'.out.None? && s'.seen == s.seen
            && BlockPids(s'.st.active) == BlockPids(s.st.active)
            && BlockPids(s'.st.exhausted) == BlockPids(s.st.exhausted) + multiset{s.out.value.pid}
  {
    var je := s.out.value;
    var e := Stepped(je, je.lastTimeslice - remaining, s.st.timeslice);
    AppendPids(s.st.exhausted, e.lastLevel, e);
  }

  lemma ReturnPids(s: Stairs, remaining: nat)
    requires Enabled(s, Return(remaining))
    ensures AllPids(Step(s, Return(remaining))) == AllPids(s)
  {
    ReturnBlocks(s, remaining);
    PidsBack(BlockPids(s.st.active), BlockPids(s.st.exhausted), multiset{s.out.value.pid});
  }

  lemma PidsBack(a: multiset<nat>, x: multiset<nat>, p: multiset<nat>)
    ensures a + (x + p) + multiset{} == a + x + p
  {
  }

  lemma OnePlaceMoved(s: Stairs, s': Stairs)
    requires OnePlace(s) && AllPids(s') == AllPids(s) && s'.seen == s.seen
    ensures OnePlace(s')
  {
  }

  lemma ReturnParts(s: Stairs, remaining: nat)
    requires Wf(s) && Enabled(s, Return(remaining))
    ensures var s' := Step(s, Return(remaining));
            && BlockWf(s'.st.active, s'.st.timeslice) && BlockWf(s'.st.exhausted, s'.st.timeslice)
            && Budget(s'.st) + s'.charged == Budget(s.st) + s.charged
  {
    var je := s.out.value;
    var used := je.lastTimeslice - remaining;
    var e := Stepped(je, used, s.st.timeslice);
    SpendSum(s.st, je.lastLevel, used);
    SpendWf(s.st.active, je.lastLevel, used, s.st.timeslice);
    SteppedWf(je, used, s.st.timeslice);
    AppendWf(s.st.exhausted, e.lastLevel, e, s.st.timeslice);
  }

  lemma ReturnWf(s: Stairs, remaining: nat)
    requires Wf(s) && Enabled(s, Return(remaining))
    ensures Wf(Step(s, Return(remaining)))
  {
    ReturnParts(s, remaining);
    ReturnPids(s, remaining);
    OnePlaceMoved(s, Step(s, Return(remaining)));
  }

  lemma FinishWf(s: Stairs)
    requires Wf(s) && Enabled(s, Finish)
    ensures Wf(Step(s, Finish)) && AllPids(Step(s, Finish)) + multiset{s.out.value.pid} == AllPids(s)
  {
    SpendSum(s.st, s.out.value.lastLevel, s.out.value.lastTimeslice);
    var s' := Step(s, Finish);
    assert AllPids(s) == AllPids(s') + multiset{s.out.value.pid};
    forall p | p in AllPids(s') ensures AllPids(s')[p] == 1 && p in s'.seen {
      assert p in AllPids(s);
    }
  }

  lemma StepWf(s: Stairs, e: Event)
    requires Wf(s) && Enabled(s, e)
    ensures Wf(Step(s, e))
  {
    match e
    case Arrive(pid, prio) => ArriveWf(s, pid, prio);
    case Dispatch => DispatchWf(s);
    case Return(remaining) => ReturnWf(s, remaining);
    case Finish => FinishWf(s);
  }

  // The invariant, folded: it opens where Wf is named.
  ghost predicate Kept(s: Stairs) { forall t {:trigger Wf(t)} :: t == s ==> Wf(t) }

  lemma KeptShaped(s: Stairs)
    requires Kept(s)
    ensures BothShaped(s.st)
  {
    assert Wf(s);
  }

  lemma StepKept(s: Stairs, e: Event)
    requires Kept(s) && Enabled(s, e)
    ensures Kept(Step(s, e))
  {
    assert Wf(s);
    StepWf(s, e);
  }

  ghost predicate Legal(s: Stairs, es: seq<Event>)
    decreases |es|
  {
    es == [] || (Enabled(s, es[0]) && Legal(Step(s, es[0]), es[1..]))
  }

  ghost function Run(s: Stairs, es: seq<Event>): Stairs
    requires Legal(s, es)
    decreases |es|
  {
    if es == [] then s else Run(Step(s, es[0]), es[1..])
  }

  // The jobs handed out, in order.
  ghost function Picks(s: Stairs, es: seq<Event>): seq<Entry>
    requires Legal(s, es)
    decreases |es|
  {
    if es == [] then []
    else
      (if es[0].Dispatch? && Select(s.st).1.Some? then [Select(s.st).1.value] else [])
      + Picks(Step(s, es[0]), es[1..])
  }

  /** Over every run from the allocated scheduler, of any length: what is left of the
      forty budgets plus all time charged is the 200 slices they began with, no pid is
      in two places, and every queued job is filed at the level it carries. */
  lemma {:induction false} RunWf(s: Stairs, es: seq<Event>)
    requires Wf(s) && Legal(s, es)
    ensures Wf(Run(s, es)) && Run(s, es).st.timeslice == s.st.timeslice
    decreases |es|
  {
    if es != [] {
      StepWf(s, es[0]);
      RunWf(Step(s, es[0]), es[1..]);
    }
  }

  lemma BudgetConserved(ts: nat, es: seq<Event>)
    requires ts > 0 && Legal(Init(ts), es)
    ensures var s := Run(Init(ts), es); Budget(s.st) + s.charged == 200 * ts
  {
    InitWf(ts);
    RunWf(Init(ts), es);
  }
}
