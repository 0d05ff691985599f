/** What an epoch of the staircase, the stretch between two swaps of its blocks,
    guarantees; and what becomes of jobs on a level whose budget is gone. */
module StaircaseEpochs {
  import opened Scheduling
  import opened StaircaseBlocks
  import opened StaircaseRuns

  // Every selection of the run is served by the active block.
  ghost predicate SwapFree(s: Stairs, es: seq<Event>)
    requires Legal(s, es)
    decreases |es|
  {
    es != [] ==>
      && (es[0].Dispatch? ==> Runnable(s.st.active))
      && SwapFree(Step(s, es[0]), es[1..])
  }

  ghost function Arrivals(es: seq<Event>): nat {
    if es == [] then 0 else (if es[0].Arrive? then 1 else 0) + Arrivals(es[1..])
  }

  ghost predicate DistinctPids(ps: seq<Entry>) {
    forall i, j :: 0 <= i < j < |ps| ==> ps[i].pid != ps[j].pid
  }

  // Jobs the epoch can still hand out: queued in the active block, or yet to arrive.
  ghost predicate Pending(s: Stairs, pid: nat) {
    pid in BlockPids(s.st.active) || pid !in s.seen
  }

  lemma ActiveOnce(s: Stairs, p: nat)
    requires Wf(s) && p in BlockPids(s.st.active)
    ensures BlockPids(s.st.active)[p] == 1 && p !in BlockPids(s.st.exhausted) && p in s.seen
    ensures s.out.Some? ==> s.out.value.pid != p
  {
    assert p in AllPids(s);
  }

  // What one step of an epoch does to the active block's population.
  lemma EpochStep(s: Stairs, e: Event, p: nat)
    requires Wf(s) && Enabled(s, e) && (e.Dispatch? ==> Runnable(s.st.active))
    requires Pending(Step(s, e), p)
    ensures Pending(s, p)
    ensures e.Dispatch? ==> Select(s.st).1.value.pid in BlockPids(s.st.active) && Select(s.st).1.value.pid != p
  {
    var s' := Step(s, e);
    match e
    case Arrive(pid, prio) =>
      AppendPids(s.st.active, StartLevel(prio), Entry(pid, s.st.timeslice, 0, StartLevel(prio), StartLevel(prio)));
    case Dispatch =>
      var l := FirstEligible(s.st.active);
      TakeHeadPids(s.st.active, l);
      ActiveOnce(s, s.st.active.queues[l][0].pid);
    case Return(remaining) =>
    case Finish =>
  }

  lemma DistinctCons(first: Entry, rest: seq<Entry>)
    requires DistinctPids(rest) && forall i :: 0 <= i < |rest| ==> rest[i].pid != first.pid
    ensures DistinctPids([first] + rest)
  {
  }

  lemma RestPending(s: Stairs, e: Event, rest: seq<Entry>)
    requires Wf(s) && Enabled(s, e) && (e.Dispatch? ==> Runnable(s.st.active))
    requires forall i :: 0 <= i < |rest| ==> Pending(Step(s, e), rest[i].pid)
    ensures forall i :: 0 <= i < |rest| ==> Pending(s, rest[i].pid)
    ensures e.Dispatch? ==>
              && Pending(s, Select(s.st).1.value.pid)
              && forall i :: 0 <= i < |rest| ==> rest[i].pid != Select(s.st).1.value.pid
  {
    forall i | 0 <= i < |rest|
      ensures Pending(s, rest[i].pid)
      ensures e.Dispatch? ==> rest[i].pid != Select(s.st).1.value.pid
    {
      EpochStep(s, e, rest[i].pid);
    }
    if e.Dispatch? {
      TakeHeadPids(s.st.active, FirstEligible(s.st.active));
    }
  }

  lemma EpochCons(s: Stairs, e: Event, rest: seq<Entry>, ps: seq<Entry>)
    requires Wf(s) && Enabled(s, e) && (e.Dispatch? ==> Runnable(s.st.active)) && DistinctPids(rest)
    requires forall i :: 0 <= i < |rest| ==> Pending(Step(s, e), rest[i].pid)
    requires ps == if e.Dispatch? then [Select(s.st).1.value] + rest else rest
    ensures DistinctPids(ps) && forall i :: 0 <= i < |ps| ==> Pending(s, ps[i].pid)
  {
    RestPending(s, e, rest);
    if e.Dispatch? {
      DistinctCons(Select(s.st).1.value, rest);
    }
  }

  lemma EpochNext(s: Stairs, es: seq<Event>) returns (s': Stairs)
    requires Wf(s) && Legal(s, es) && SwapFree(s, es) && es != []
    ensures s' == Step(s, es[0]) && Wf(s') && Legal(s', es[1..]) && SwapFree(s', es[1..])
  {
    StepWf(s, es[0]);
    s' := Step(s, es[0]);
  }

  /** Between two swaps no job is handed out twice, and only jobs that were queued in the
      active block or arrived in the meantime are handed out. */
  lemma {:induction false} EpochNoRepeats(s: Stairs, es: seq<Event>)
    requires Wf(s) && Legal(s, es) && SwapFree(s, es)
    ensures DistinctPids(Picks(s, es))
    ensures forall i :: 0 <= i < |Picks(s, es)| ==> Pending(s, Picks(s, es)[i].pid)
    decreases |es|
  {
    if es != [] {
      var s' := EpochNext(s, es);
      var rest := Picks(s', es[1..]);
      EpochNoRepeats(s', es[1..]);
      PicksCons(s, es);
      EpochCons(s, es[0], rest, Picks(s, es));
    }
  }

  /** An epoch hands out at most as many jobs as were queued in the active block, plus
      those that arrived. */
  lemma {:induction false} EpochLength(s: Stairs, es: seq<Event>)
    requires Wf(s) && Legal(s, es) && SwapFree(s, es)
    ensures |Picks(s, es)| <= |BlockPids(s.st.active)| + Arrivals(es)
    decreases |es|
  {
    if es != [] {
      var s' := Step(s, es[0]);
      StepWf(s, es[0]);
      EpochLength(s', es[1..]);
      match es[0]
      case Arrive(pid, prio) =>
        AppendPids(s.st.active, StartLevel(prio), Entry(pid, s.st.timeslice, 0, StartLevel(prio), StartLevel(prio)));
      case Dispatch => TakeHeadPids(s.st.active, FirstEligible(s.st.active));
      case Return(remaining) =>
      case Finish =>
    }
  }

  // Without arrivals no level of the active block becomes eligible again.
  lemma EligibleOnlyShrinks(s: Stairs, e: Event)
    requires Wf(s) && Enabled(s, e) && !e.Arrive? && (e.Dispatch? ==> Runnable(s.st.active))
    ensures BothShaped(Step(s, e).st)
    ensures FirstEligible(s.st.active) <= FirstEligible(Step(s, e).st.active)
  {
    StepWf(s, e);
    var s' := Step(s, e);
    var m := FirstEligible(s'.st.active);
    assert m < LAYERS ==> Eligible(s.st.active, m);
  }

  lemma LevelOfPick(s: Stairs)
    requires Wf(s) && Runnable(s.st.active)
    ensures Select(s.st).1.value.lastLevel == FirstEligible(s.st.active)
  {
  }

  // Levels at or below `top` in the stairs, never going back up.
  ghost predicate Descending(ps: seq<Entry>, top: nat) {
    && (forall i :: 0 <= i < |ps| ==> top <= ps[i].lastLevel)
    && (forall i, j :: 0 <= i < j < |ps| ==> ps[i].lastLevel <= ps[j].lastLevel)
  }

  lemma DescendingCons(first: Entry, rest: seq<Entry>, top: nat)
    requires first.lastLevel == top && Descending(rest, top)
    ensures Descending([first] + rest, top)
  {
  }

  lemma PicksCons(s: Stairs, es: seq<Event>)
    requires Legal(s, es) && es != []
    ensures var rest := Picks(Step(s, es[0]), es[1..]);
            Picks(s, es) == if es[0].Dispatch? && Select(s.st).1.Some? then [Select(s.st).1.value] + rest else rest
  {
  }

  /** Without arrivals an epoch walks down the stairs: the levels handed out never
      decrease. */
  lemma {:induction false} EpochDescends(s: Stairs, es: seq<Event>)
    requires Wf(s) && Legal(s, es) && SwapFree(s, es) && Arrivals(es) == 0
    ensures Descending(Picks(s, es), FirstEligible(s.st.active))
    decreases |es|
  {
    if es != [] {
      var s' := Step(s, es[0]);
      StepWf(s, es[0]);
      EligibleOnlyShrinks(s, es[0]);
      EpochDescends(s', es[1..]);
      PicksCons(s, es);
      if es[0].Dispatch? {
        LevelOfPick(s);
        DescendingCons(Select(s.st).1.value, Picks(s', es[1..]), FirstEligible(s.st.active));
      }
    }
  }

  // ---- jobs that can never run again ----

  ghost predicate StuckAt(b: Block, l: nat, pid: nat) {
    && Shaped(b) && l < LAYERS
    && b.timeslices[l] == 0
    && exists i :: 0 <= i < |b.queues[l]| && b.queues[l][i].pid == pid
  }

  // The job is queued at a level whose budget is gone.
  ghost predicate Stuck(s: Stairs, pid: nat) {
    exists l :: StuckAt(s.st.active, l, pid) || StuckAt(s.st.exhausted, l, pid)
  }

  /** At a swap, every job still queued in the block being put away is stuck. */
  lemma LeftAtSwapIsStuck(s: Stairs, l: nat, i: nat)
    requires Wf(s) && !Runnable(s.st.active) && l < LAYERS && i < |s.st.active.queues[l]|
    ensures Stuck(s.(st := Swapped(s.st)), s.st.active.queues[l][i].pid)
  {
    assert !Eligible(s.st.active, l);
    assert StuckAt(Swapped(s.st).exhausted, l, s.st.active.queues[l][i].pid);
  }

  lemma StuckAtAppend(b: Block, l: nat, pid: nat, m: nat, e: Entry)
    requires StuckAt(b, l, pid) && m < LAYERS
    ensures StuckAt(Append(b, m, e), l, pid)
  {
    var i :| 0 <= i < |b.queues[l]| && b.queues[l][i].pid == pid;
    assert Append(b, m, e).queues[l][i].pid == pid;
  }

  lemma StuckStep(s: Stairs, e: Event, pid: nat)
    requires Wf(s) && Enabled(s, e) && Stuck(s, pid)
    ensures Stuck(Step(s, e), pid)
    ensures e.Dispatch? && Select(s.st).1.Some? ==> Select(s.st).1.value.pid != pid
  {
    var l :| StuckAt(s.st.active, l, pid) || StuckAt(s.st.exhausted, l, pid);
    var st := Step(s, e).st;
    match e
    case Arrive(p, prio) =>
      if StuckAt(s.st.active, l, pid) {
        StuckAtAppend(s.st.active, l, pid, StartLevel(prio),
                      Entry(p, s.st.timeslice, 0, StartLevel(prio), StartLevel(prio)));
      }
      assert StuckAt(st.active, l, pid) || StuckAt(st.exhausted, l, pid);
    case Dispatch =>
      StuckDispatch(s, l, pid);
    case Return(remaining) =>
      var je := s.out.value;
      var e' := Stepped(je, je.lastTimeslice - remaining, s.st.timeslice);
      if StuckAt(s.st.exhausted, l, pid) {
        StuckAtAppend(s.st.exhausted, l, pid, e'.lastLevel, e');
      }
      assert StuckAt(st.active, l, pid) || StuckAt(st.exhausted, l, pid);
    case Finish =>
      assert StuckAt(st.active, l, pid) || StuckAt(st.exhausted, l, pid);
  }

  lemma StuckTake(s: Stairs, m: nat, l: nat, pid: nat)
    requires Wf(s) && Eligible(s.st.active, m)
    requires StuckAt(s.st.active, l, pid) || StuckAt(s.st.exhausted, l, pid)
    ensures StuckAt(Take(s.st, m).0.active, l, pid) || StuckAt(Take(s.st, m).0.exhausted, l, pid)
    ensures Take(s.st, m).1.pid != pid
  {
    TakeHeadPids(s.st.active, m);
    ActiveOnce(s, s.st.active.queues[m][0].pid);
    if StuckAt(s.st.active, l, pid) {
      var i :| 0 <= i < |s.st.active.queues[l]| && s.st.active.queues[l][i].pid == pid;
      QueuePidsMember(s.st.active.queues[l], i);
      LevelPidsUpdate(TakeHead(s.st.active, m).queues, l, []);
    } else {
      var i :| 0 <= i < |s.st.exhausted.queues[l]| && s.st.exhausted.queues[l][i].pid == pid;
      QueuePidsMember(s.st.exhausted.queues[l], i);
      LevelPidsUpdate(s.st.exhausted.queues, l, []);
    }
  }

  lemma StuckDispatch(s: Stairs, l: nat, pid: nat)
    requires Wf(s) && Enabled(s, Dispatch)
    requires StuckAt(s.st.active, l, pid) || StuckAt(s.st.exhausted, l, pid)
    ensures Stuck(Step(s, Dispatch), pid)
    ensures Select(s.st).1.Some? ==> Select(s.st).1.value.pid != pid
  {
    var st := Step(s, Dispatch).st;
    if Runnable(s.st.active) {
      StuckTake(s, FirstEligible(s.st.active), l, pid);
    } else if Runnable(s.st.exhausted) {
      SwapWf(s);
      StuckTake(s.(st := Swapped(s.st)), FirstEligible(s.st.exhausted), l, pid);
    }
    assert StuckAt(st.active, l, pid) || StuckAt(st.exhausted, l, pid);
  }

  lemma StuckNext(s: Stairs, es: seq<Event>, pid: nat) returns (s': Stairs)
    requires Wf(s) && Legal(s, es) && Stuck(s, pid) && es != []
    ensures s' == Step(s, es[0]) && Wf(s') && Legal(s', es[1..]) && Stuck(s', pid)
    ensures Run(s, es) == Run(s', es[1..])
    ensures es[0].Dispatch? && Select(s.st).1.Some? ==> Select(s.st).1.value.pid != pid
  {
    StepWf(s, es[0]);
    StuckStep(s, es[0], pid);
    s' := Step(s, es[0]);
  }

  /** Budgets are never refilled, so a stuck job stays stuck: in no continuation, whatever
      arrives, returns or finishes, is it ever handed out again. */
  lemma {:induction false} StuckForever(s: Stairs, es: seq<Event>, pid: nat)
    requires Wf(s) && Legal(s, es) && Stuck(s, pid)
    ensures Stuck(Run(s, es), pid)
    ensures forall i :: 0 <= i < |Picks(s, es)| ==> Picks(s, es)[i].pid != pid
    decreases |es|
  {
    if es != [] {
      var s' := StuckNext(s, es, pid);
      StuckForever(s', es[1..], pid);
      PicksCons(s, es);
    }
  }

  /** Once 200 slices have been charged the scheduler reports idle for ever, however many
      jobs are queued or arrive. */
  lemma {:induction false} SpentIsIdleForever(s: Stairs, es: seq<Event>)
    requires Wf(s) && s.out.None? && s.charged == 200 * s.st.timeslice && Legal(s, es)
    ensures Picks(s, es) == []
    decreases |es|
  {
    if es != [] {
      SumZero(s.st.active.timeslices);
      SumZero(s.st.exhausted.timeslices);
      assert FirstEligible(s.st.active) == LAYERS && FirstEligible(s.st.exhausted) == LAYERS;
      StepWf(s, es[0]);
      SpentIsIdleForever(Step(s, es[0]), es[1..]);
    }
  }
}
