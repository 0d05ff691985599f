/** Which queued jobs of the staircase can still run, and when it is idle for ever. */
module StaircaseFates {
  import opened Scheduling
  import opened StaircaseBlocks
  import opened StaircaseRuns
  import opened StaircaseEpochs

  ghost predicate Among(ps: seq<Entry>, pid: nat) {
    exists i :: 0 <= i < |ps| && ps[i].pid == pid
  }

  ghost predicate HandedOut(s: Stairs, es: seq<Event>, pid: nat) {
    Legal(s, es) && Among(Picks(s, es), pid)
  }

  lemma AmongLater(first: Entry, ps: seq<Entry>, pid: nat)
    requires Among(ps, pid)
    ensures Among([first] + ps, pid)
  {
    var i :| 0 <= i < |ps| && ps[i].pid == pid;
    assert ([first] + ps)[i + 1].pid == pid;
  }

  lemma TailIs<T>(x: T, xs: seq<T>)
    ensures ([x] + xs)[0] == x && ([x] + xs)[1..] == xs
  {
  }

  lemma HandedOutLater(s: Stairs, e: Event, es: seq<Event>, pid: nat)
    requires Enabled(s, e) && HandedOut(Step(s, e), es, pid)
    ensures HandedOut(s, [e] + es, pid)
  {
    var all := [e] + es;
    TailIs(e, es);
    PicksCons(s, all);
    if e.Dispatch? && Select(s.st).1.Some? {
      AmongLater(Select(s.st).1.value, Picks(Step(s, e), es), pid);
    }
  }

  lemma HandedOutNow(s: Stairs, pid: nat)
    requires Enabled(s, Dispatch) && Select(s.st).1.Some? && Select(s.st).1.value.pid == pid
    ensures HandedOut(s, [Dispatch], pid)
  {
    PicksCons(s, [Dispatch]);
    assert Picks(s, [Dispatch])[0].pid == pid;
  }

  // ---- a job on a level with budget ----

  ghost predicate ReadyAt(b: Block, l: nat, pid: nat) {
    && Shaped(b) && l < LAYERS && b.timeslices[l] != 0
    && exists i :: 0 <= i < |b.queues[l]| && b.queues[l][i].pid == pid
  }

  lemma ReadyAtAppend(b: Block, l: nat, pid: nat, m: nat, e: Entry)
    requires ReadyAt(b, l, pid) && m < LAYERS
    ensures ReadyAt(Append(b, m, e), l, pid)
  {
    var i :| 0 <= i < |b.queues[l]| && b.queues[l][i].pid == pid;
    assert Append(b, m, e).queues[l][i].pid == pid;
  }

  lemma ReadyAtTake(b: Block, l: nat, pid: nat, m: nat)
    requires ReadyAt(b, l, pid) && m < LAYERS && b.queues[m] != [] && b.queues[m][0].pid != pid
    ensures ReadyAt(TakeHead(b, m), l, pid)
  {
    var i :| 0 <= i < |b.queues[l]| && b.queues[l][i].pid == pid;
    assert TakeHead(b, m).queues[l][if m == l then i - 1 else i].pid == pid;
  }

  lemma ReadyRuns(b: Block, l: nat, pid: nat)
    requires ReadyAt(b, l, pid)
    ensures Runnable(b)
  {
    assert Eligible(b, l);
  }

  lemma SpendNothing(b: Block, l: nat)
    requires Shaped(b) && l < LAYERS
    ensures Spend(b, l, 0) == b
  {
    assert b.timeslices[l := b.timeslices[l] - 0] == b.timeslices;
  }

  // A job is taken and hands its whole slice back: it has moved to the other block and
  // no budget has changed.
  lemma Unused(s: Stairs) returns (src: Staircase, m: nat, r: nat, e: Entry, s': Stairs)
    requires Wf(s) && s.out.None? && (Runnable(s.st.active) || Runnable(s.st.exhausted))
    ensures src == if Runnable(s.st.active) then s.st else Swapped(s.st)
    ensures Eligible(src.active, m) && Select(s.st).1.Some?
    ensures Select(s.st).1.value.pid == src.active.queues[m][0].pid
    ensures Enabled(s, Dispatch) && Enabled(Step(s, Dispatch), Return(r))
    ensures s' == Step(Step(s, Dispatch), Return(r)) && Wf(s') && s'.out.None?
    ensures e.lastLevel < LAYERS && s'.st.active == TakeHead(src.active, m)
    ensures s'.st.exhausted == Append(src.exhausted, e.lastLevel, e)
  {
    src := if Runnable(s.st.active) then s.st else Swapped(s.st);
    m := FirstEligible(src.active);
    StepWf(s, Dispatch);
    var s1 := Step(s, Dispatch);
    r := s1.out.value.lastTimeslice;
    ReturnCannotWrap(s1, r);
    StepWf(s1, Return(r));
    s' := Step(s1, Return(r));
    e := Stepped(s1.out.value, 0, s1.st.timeslice);
    SpendNothing(s1.st.active, s1.out.value.lastLevel);
  }

  lemma {:induction false} RunsFromActive(s: Stairs, l: nat, pid: nat) returns (es: seq<Event>)
    requires Wf(s) && s.out.None? && ReadyAt(s.st.active, l, pid)
    ensures HandedOut(s, es, pid)
    decreases |BlockPids(s.st.active)|
  {
    ReadyRuns(s.st.active, l, pid);
    var src, m, r, e, s' := Unused(s);
    if Select(s.st).1.value.pid == pid {
      HandedOutNow(s, pid);
      es := [Dispatch];
    } else {
      ReadyAtTake(s.st.active, l, pid, m);
      TakeHeadPids(s.st.active, m);
      es := RunsFromActive(s', l, pid);
      HandedOutLater(Step(s, Dispatch), Return(r), es, pid);
      es := [Return(r)] + es;
      HandedOutLater(s, Dispatch, es, pid);
      es := [Dispatch] + es;
    }
  }

  lemma {:induction false} RunsFromExhausted(s: Stairs, l: nat, pid: nat) returns (es: seq<Event>)
    requires Wf(s) && s.out.None? && ReadyAt(s.st.exhausted, l, pid)
    ensures HandedOut(s, es, pid)
    decreases |BlockPids(s.st.active)|
  {
    ReadyRuns(s.st.exhausted, l, pid);
    var src, m, r, e, s' := Unused(s);
    if Select(s.st).1.value.pid == pid {
      HandedOutNow(s, pid);
      es := [Dispatch];
    } else {
      if Runnable(s.st.active) {
        ReadyAtAppend(s.st.exhausted, l, pid, e.lastLevel, e);
        TakeHeadPids(s.st.active, m);
        es := RunsFromExhausted(s', l, pid);
      } else {
        ReadyAtTake(s.st.exhausted, l, pid, m);
        es := RunsFromActive(s', l, pid);
      }
      HandedOutLater(Step(s, Dispatch), Return(r), es, pid);
      es := [Return(r)] + es;
      HandedOutLater(s, Dispatch, es, pid);
      es := [Dispatch] + es;
    }
  }

  lemma {:induction false} QueueHas(q: seq<Entry>, pid: nat)
    requires pid in QueuePids(q)
    ensures exists i :: 0 <= i < |q| && q[i].pid == pid
  {
    if q[0].pid != pid {
      QueueHas(q[1..], pid);
      var i :| 0 <= i < |q[1..]| && q[1..][i].pid == pid;
      assert q[i + 1].pid == pid;
    }
  }

  lemma {:induction false} LevelHas(qs: seq<seq<Entry>>, pid: nat) returns (l: nat)
    requires pid in LevelPids(qs)
    ensures l < |qs| && exists i :: 0 <= i < |qs[l]| && qs[l][i].pid == pid
  {
    if pid in QueuePids(qs[0]) {
      QueueHas(qs[0], pid);
      l := 0;
    } else {
      l := LevelHas(qs[1..], pid);
      l := l + 1;
    }
  }

  // ---- idle for ever ----

  // Nothing can run, and no priority starts at a level with budget.
  ghost predicate Dead(s: Stairs) {
    && s.out.None? && BothShaped(s.st)
    && !Runnable(s.st.active) && !Runnable(s.st.exhausted)
    && forall prio: Priority :: s.st.active.timeslices[StartLevel(prio)] == 0
                                && s.st.exhausted.timeslices[StartLevel(prio)] == 0
  }

  lemma NotRunnable(b: Block)
    requires Shaped(b)
    ensures Runnable(b) <==> exists l :: Eligible(b, l)
  {
  }

  lemma DeadStep(s: Stairs, e: Event)
    requires Dead(s) && Enabled(s, e)
    ensures Dead(Step(s, e)) && (e.Dispatch? ==> Select(s.st).1.None?)
  {
    NotRunnable(s.st.active);
    NotRunnable(s.st.exhausted);
    if e.Arrive? {
      var b := Step(s, e).st.active;
      NotRunnable(b);
      assert forall l :: Eligible(b, l) ==> l == StartLevel(e.prio) || Eligible(s.st.active, l);
    }
  }

  lemma {:induction false} DeadForever(s: Stairs, es: seq<Event>)
    requires Dead(s) && Legal(s, es)
    ensures Picks(s, es) == [] && Dead(Run(s, es))
    decreases |es|
  {
    if es != [] {
      DeadStep(s, es[0]);
      DeadForever(Step(s, es[0]), es[1..]);
      PicksCons(s, es);
    }
  }

  lemma {:induction false} FreshPid(seen: set<nat>) returns (pid: nat)
    ensures pid > 0 && forall p :: p in seen ==> p < pid
    decreases |seen|
  {
    if seen == {} {
      pid := 1;
    } else {
      var p :| p in seen;
      var q := FreshPid(seen - {p});
      pid := Max(q, p + 1);
      assert forall r :: r in seen ==> r == p || r in seen - {p};
    }
  }

  // A yarn that arrives at a level with budget is next to run, or already another is.
  lemma ArrivalRuns(s: Stairs, pid: nat, prio: Priority) returns (es: seq<Event>)
    requires Wf(s) && s.out.None? && Enabled(s, Arrive(pid, prio)) && s.st.active.timeslices[StartLevel(prio)] != 0
    ensures Legal(s, es) && Picks(s, es) != []
  {
    var l := StartLevel(prio);
    var s' := Step(s, Arrive(pid, prio));
    StepWf(s, Arrive(pid, prio));
    var b := s'.st.active;
    assert b.queues[l][|b.queues[l]| - 1].pid == pid;
    assert Eligible(b, l);
    es := RunsFromActive(s', l, pid);
    HandedOutLater(s, Arrive(pid, prio), es, pid);
    es := [Arrive(pid, prio)] + es;
  }

  lemma NotDeadRuns(s: Stairs) returns (es: seq<Event>)
    requires Wf(s) && s.out.None? && !Dead(s)
    ensures Legal(s, es) && Picks(s, es) != []
  {
    if Runnable(s.st.active) || Runnable(s.st.exhausted) {
      var src, m, r, e, s' := Unused(s);
      es := [Dispatch];
      HandedOutNow(s, Select(s.st).1.value.pid);
    } else {
      var pid := FreshPid(s.seen);
      var prio: Priority :| s.st.active.timeslices[StartLevel(prio)] != 0
                            || s.st.exhausted.timeslices[StartLevel(prio)] != 0;
      if s.st.active.timeslices[StartLevel(prio)] != 0 {
        es := ArrivalRuns(s, pid, prio);
      } else {
        var s' := Step(s, Dispatch);
        StepWf(s, Dispatch);
        es := ArrivalRuns(s', pid, prio);
        assert ([Dispatch] + es)[1..] == es;
        PicksCons(s, [Dispatch] + es);
        es := [Dispatch] + es;
      }
    }
  }

  /** With no job out, the scheduler is idle in every continuation, whatever arrives, if
      and only if nothing queued can run and the levels at which yarns start have no
      budget in either block. */
  lemma IdleForeverIff(s: Stairs)
    requires Wf(s) && s.out.None?
    ensures (forall es :: Legal(s, es) ==> Picks(s, es) == []) <==> Dead(s)
  {
    if Dead(s) {
      forall es | Legal(s, es) ensures Picks(s, es) == [] {
        DeadForever(s, es);
      }
    } else {
      var es := NotDeadRuns(s);
    }
  }

  // ---- the fate of each queued job ----

  ghost predicate Waiting(s: Stairs, pid: nat) {
    pid in BlockPids(s.st.active) + BlockPids(s.st.exhausted)
  }

  // It is ready in one of the blocks, or stuck in one.
  lemma WhereItWaits(s: Stairs, pid: nat) returns (l: nat)
    requires Wf(s) && Waiting(s, pid) && !Stuck(s, pid)
    ensures ReadyAt(s.st.active, l, pid) || ReadyAt(s.st.exhausted, l, pid)
  {
    if pid in BlockPids(s.st.active) {
      l := LevelHas(s.st.active.queues, pid);
      assert !StuckAt(s.st.active, l, pid);
    } else {
      l := LevelHas(s.st.exhausted.queues, pid);
      assert !StuckAt(s.st.exhausted, l, pid);
    }
  }

  // A job that is out hands its whole slice back: no other job is affected.
  lemma OutReturns(s: Stairs, l: nat, pid: nat) returns (r: nat)
    requires Wf(s) && s.out.Some? && (ReadyAt(s.st.active, l, pid) || ReadyAt(s.st.exhausted, l, pid))
    ensures Enabled(s, Return(r))
    ensures var s' := Step(s, Return(r));
            && Wf(s') && s'.out.None?
            && (ReadyAt(s'.st.active, l, pid) || ReadyAt(s'.st.exhausted, l, pid))
  {
    r := s.out.value.lastTimeslice;
    ReturnCannotWrap(s, r);
    StepWf(s, Return(r));
    var e := Stepped(s.out.value, 0, s.st.timeslice);
    SpendNothing(s.st.active, s.out.value.lastLevel);
    if ReadyAt(s.st.exhausted, l, pid) {
      ReadyAtAppend(s.st.exhausted, l, pid, e.lastLevel, e);
    }
  }

  lemma ReadyIsHandedOut(s: Stairs, l: nat, pid: nat) returns (es: seq<Event>)
    requires Wf(s) && (ReadyAt(s.st.active, l, pid) || ReadyAt(s.st.exhausted, l, pid))
    ensures HandedOut(s, es, pid)
  {
    if s.out.Some? {
      var r := OutReturns(s, l, pid);
      es := IdleHandsOut(Step(s, Return(r)), l, pid);
      HandedOutLater(s, Return(r), es, pid);
      es := [Return(r)] + es;
    } else {
      es := IdleHandsOut(s, l, pid);
    }
  }

  lemma IdleHandsOut(s: Stairs, l: nat, pid: nat) returns (es: seq<Event>)
    requires Wf(s) && s.out.None? && (ReadyAt(s.st.active, l, pid) || ReadyAt(s.st.exhausted, l, pid))
    ensures HandedOut(s, es, pid)
  {
    if ReadyAt(s.st.active, l, pid) {
      es := RunsFromActive(s, l, pid);
    } else {
      es := RunsFromExhausted(s, l, pid);
    }
  }

  /** A queued job is never handed out again, in any continuation, if and only if the level
      it is queued on has no budget left. */
  lemma HandedOutIff(s: Stairs, pid: nat)
    requires Wf(s) && Waiting(s, pid)
    ensures (exists es :: HandedOut(s, es, pid)) <==> !Stuck(s, pid)
  {
    if Stuck(s, pid) {
      forall es ensures !HandedOut(s, es, pid) {
        if Legal(s, es) {
          StuckForever(s, es, pid);
        }
      }
    } else {
      var l := WhereItWaits(s, pid);
      var es := ReadyIsHandedOut(s, l, pid);
    }
  }
}
