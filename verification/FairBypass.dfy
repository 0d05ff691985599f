/** How often a waiting task can be passed over by the fair scheduler, with any number
    of cores holding tasks. */
module FairBypass {
  import opened Scheduling
  import opened FairTimeline
  import opened FairRuns

  const STRIDE: nat := 2 * MIN_GRANULARITY

  // The least key at which pid can next be selected; None once it has finished.
  ghost function NextKey(s: Fleet, pid: nat): Option<nat> {
    if k :| k in s.tl.tree && s.tl.tree[k].pid == pid then Some(k)
    else if pid in s.out then Some(s.out[pid].timebase + STRIDE)
    else None
  }

  // How many times a task can still be selected below key k.
  ghost function Passes(s: Fleet, pid: nat, k: nat): nat {
    match NextKey(s, pid)
    case Some(x) => if x < k then CeilDiv(k - x, STRIDE) else 0
    case None => 0
  }

  ghost function Times(picks: seq<Task>, pid: nat): nat {
    if picks == [] then 0 else (if picks[0].pid == pid then 1 else 0) + Times(picks[1..], pid)
  }

  lemma QueuedKey(s: Fleet, k: nat)
    requires Wf(s) && k in s.tl.tree
    ensures NextKey(s, s.tl.tree[k].pid) == Some(k)
  {
  }

  ghost predicate Rises(s: Fleet, s': Fleet, pid: nat, gain: nat) {
    NextKey(s', pid).Some? ==>
      NextKey(s, pid).Some? && NextKey(s', pid).value >= NextKey(s, pid).value + gain
  }

  lemma DispatchRises(s: Fleet, pid: nat, ts: nat)
    requires Wf(s) && s.tl.tree != map[]
    ensures Rises(s, Step(s, Dispatch, ts), pid, if Select(s.tl, ts).1.value.pid == pid then STRIDE else 0)
  {
  }

  lemma ArriveRises(s: Fleet, p: nat, prio: Priority, pid: nat, ts: nat)
    requires Wf(s) && Enabled(s, Arrive(p, prio)) && pid in s.seen
    ensures Rises(s, Step(s, Arrive(p, prio), ts), pid, 0)
  {
  }

  lemma ReturnRises(s: Fleet, p: nat, remaining: nat, pid: nat, ts: nat)
    requires Wf(s) && Enabled(s, Return(p, remaining)) && pid in s.seen
    ensures Rises(s, Step(s, Return(p, remaining), ts), pid, 0)
  {
  }

  // Each task's next key only moves up, by a whole stride when it is selected.
  lemma NextKeyRises(s: Fleet, e: Event, pid: nat, ts: nat)
    requires Wf(s) && Enabled(s, e) && pid in s.seen
    ensures Rises(s, Step(s, e, ts), pid,
                  if e.Dispatch? && s.tl.tree != map[] && Select(s.tl, ts).1.value.pid == pid then STRIDE else 0)
  {
    match e
    case Arrive(p, prio) => ArriveRises(s, p, prio, pid, ts);
    case Dispatch => if s.tl.tree != map[] { DispatchRises(s, pid, ts); }
    case Return(p, remaining) => ReturnRises(s, p, remaining, pid, ts);
    case Finish(p) =>
  }

  // A selection below k uses up one of the selected task's passes.
  lemma PassesFall(s: Fleet, s': Fleet, pid: nat, k: nat, gain: nat)
    requires Rises(s, s', pid, gain)
    ensures Passes(s', pid, k) <= Passes(s, pid, k)
    ensures gain >= STRIDE && NextKey(s, pid).Some? && NextKey(s, pid).value < k ==>
              Passes(s', pid, k) < Passes(s, pid, k)
  {
  }

  lemma PassesStep(s: Fleet, e: Event, pid: nat, k: nat, ts: nat)
    requires Wf(s) && Enabled(s, e) && pid in s.seen && k in s.tl.tree && s.tl.tree[k].pid != pid
    ensures Passes(Step(s, e, ts), pid, k) <= Passes(s, pid, k)
    ensures e.Dispatch? && Select(s.tl, ts).1.value.pid == pid ==>
              Passes(Step(s, e, ts), pid, k) < Passes(s, pid, k)
  {
    var picked := e.Dispatch? && Select(s.tl, ts).1.value.pid == pid;
    NextKeyRises(s, e, pid, ts);
    PassesFall(s, Step(s, e, ts), pid, k, if picked then STRIDE else 0);
    if picked {
      QueuedKey(s, LeastKey(s.tl.tree));
    }
  }

  lemma TimesCons(first: Task, rest: seq<Task>, pid: nat)
    ensures Times([first] + rest, pid) == (if first.pid == pid then 1 else 0) + Times(rest, pid)
  {
  }

  /** Bounded bypass: while one task waits at key k, another whose next key is x is
      selected at most ceil((k - x) / 100) times, and not at all when x >= k, whatever
      else arrives, returns or finishes and however many cores hold tasks. */
  lemma {:induction false} BoundedBypass(s: Fleet, es: seq<Event>, k: nat, pid: nat, ts: nat)
    requires Wf(s) && Legal(s, es, ts) && k in s.tl.tree
    requires Spared(Picks(s, es, ts), s.tl.tree[k].pid)
    requires pid in s.seen && pid != s.tl.tree[k].pid
    ensures Times(Picks(s, es, ts), pid) <= Passes(s, pid, k)
    decreases |es|
  {
    if es != [] {
      var s' := Step(s, es[0], ts);
      StepWf(s, es[0], ts);
      PicksCons(s, es, ts);
      PassesStep(s, es[0], pid, k, ts);
      if es[0].Dispatch? {
        SparedCons(Select(s.tl, ts).1.value, Picks(s', es[1..], ts), s.tl.tree[k].pid);
        TimesCons(Select(s.tl, ts).1.value, Picks(s', es[1..], ts), pid);
      }
      WaiterKept(s, es[0], k, ts);
      BoundedBypass(s', es[1..], k, pid, ts);
    }
  }

  ghost function AllPasses(s: Fleet, ids: set<nat>, k: nat): nat {
    SumOver(ids, p => Passes(s, p, k))
  }

  lemma AllPassesStep(s: Fleet, e: Event, ids: set<nat>, k: nat, ts: nat)
    requires Wf(s) && Enabled(s, e) && k in s.tl.tree
    requires forall p :: p in ids ==> p in s.seen && p != s.tl.tree[k].pid
    ensures AllPasses(Step(s, e, ts), ids, k) <= AllPasses(s, ids, k)
    ensures e.Dispatch? && Select(s.tl, ts).1.value.pid in ids ==>
              AllPasses(Step(s, e, ts), ids, k) < AllPasses(s, ids, k)
  {
    var s' := Step(s, e, ts);
    forall p | p in ids
      ensures Passes(s', p, k) <= Passes(s, p, k)
      ensures e.Dispatch? && Select(s.tl, ts).1.value.pid == p ==> Passes(s', p, k) < Passes(s, p, k)
    {
      PassesStep(s, e, p, k, ts);
    }
    SumOverMonotone(ids, p => Passes(s', p, k), p => Passes(s, p, k));
    if e.Dispatch? && Select(s.tl, ts).1.value.pid in ids {
      SumOverDrops(ids, p => Passes(s', p, k), p => Passes(s, p, k), Select(s.tl, ts).1.value.pid);
    }
  }

  /** Waiting bound: with a fixed set of tasks and any number of cores, the number of
      selections before a waiting task's turn is at most the sum, over the other tasks,
      of ceil((k - next key) / 100). */
  lemma {:induction false} WaitingBound(s: Fleet, es: seq<Event>, k: nat, ts: nat)
    requires Wf(s) && Legal(s, es, ts) && NoArrivals(es) && k in s.tl.tree
    requires Spared(Picks(s, es, ts), s.tl.tree[k].pid)
    ensures |Picks(s, es, ts)| <= AllPasses(s, s.seen - {s.tl.tree[k].pid}, k)
    decreases |es|
  {
    if es != [] {
      var s' := Step(s, es[0], ts);
      var ids := s.seen - {s.tl.tree[k].pid};
      StepWf(s, es[0], ts);
      PicksCons(s, es, ts);
      AllPassesStep(s, es[0], ids, k, ts);
      if es[0].Dispatch? {
        SparedCons(Select(s.tl, ts).1.value, Picks(s', es[1..], ts), s.tl.tree[k].pid);
      }
      WaiterKept(s, es[0], k, ts);
      assert s'.seen == s.seen;
      WaitingBound(s', es[1..], k, ts);
    }
  }
}
