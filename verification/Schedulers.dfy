/** The three schedulers behind one interface, as one core uses them: the queue, the jobs
    handed out and not yet back, and the pids ever scheduled here. */
module Schedulers {
  import opened Scheduling
  import FT = FairTimeline
  import FR = FairRuns
  import RR = RoundRobin
  import SB = StaircaseBlocks
  import SR = StaircaseRuns

  datatype Core =
    | Fair(fleet: FR.Fleet, ts: nat)
    | Staircase(stairs: SR.Stairs)
    | RoundRobin(queue: seq<nat>, out: multiset<nat>, seen: set<nat>, ts: nat)

  // What select leaves in the job record; pid 0 is idle.
  datatype Grant = Grant(pid: nat, runtime: nat)

  const IDLE := Grant(0, 0)

  // ---- where a pid is ----

  ghost function TreePids(tree: map<nat, FT.Task>): set<nat> {
    set k | k in tree :: tree[k].pid
  }

  lemma FiledPids(tree: map<nat, FT.Task>, k: nat, t: FT.Task)
    requires k !in tree
    ensures TreePids(tree[k := t]) == TreePids(tree) + {t.pid}
  {
    var tree' := tree[k := t];
    assert forall j :: j in tree ==> j in tree' && tree'[j] == tree[j];
    assert k in tree' && tree'[k] == t;
  }

  lemma TakenPids(tree: map<nat, FT.Task>, k: nat)
    requires k in tree && FR.DistinctPids(tree)
    ensures tree[k].pid !in TreePids(tree - {k})
    ensures TreePids(tree) == TreePids(tree - {k}) + {tree[k].pid}
  {
    assert tree == (tree - {k})[k := tree[k]];
    FiledPids(tree - {k}, k, tree[k]);
  }

  // With one pid a task, nothing is lost by counting pids instead of keys.
  lemma {:induction false} TreePidsSize(tree: map<nat, FT.Task>)
    requires FR.DistinctPids(tree)
    ensures |TreePids(tree)| == |tree|
  {
    if tree == map[] {
      assert TreePids(tree) == {};
    } else {
      var k :| k in tree;
      TreePidsSize(tree - {k});
      TakenPids(tree, k);
      assert (tree - {k}).Keys == tree.Keys - {k};
      assert |tree.Keys| == |tree| && |(tree - {k}).Keys| == |tree - {k}|;
    }
  }

  lemma MultisetAdd(a: set<nat>, p: nat)
    requires p !in a
    ensures multiset(a + {p}) == multiset(a) + multiset{p}
  {
  }

  lemma AddFirst(a: multiset<nat>, b: multiset<nat>, p: multiset<nat>)
    ensures (a + p) + b == a + b + p
  {
  }

  lemma AddLast(a: multiset<nat>, b: multiset<nat>, p: multiset<nat>)
    ensures a + (b + p) == a + b + p
  {
  }

  ghost function Queued(c: Core): multiset<nat> {
    match c
    case Fair(fleet, _) => multiset(TreePids(fleet.tl.tree))
    case Staircase(s) => SR.BlockPids(s.st.active) + SR.BlockPids(s.st.exhausted)
    case RoundRobin(queue, _, _, _) => multiset(queue)
  }

  ghost function Out(c: Core): multiset<nat> {
    match c
    case Fair(fleet, _) => multiset(fleet.out.Keys)
    case Staircase(s) => SR.OutPids(s.out)
    case RoundRobin(_, out, _, _) => out
  }

  function Seen(c: Core): set<nat> {
    match c
    case Fair(fleet, _) => fleet.seen
    case Staircase(s) => s.seen
    case RoundRobin(_, _, seen, _) => seen
  }

  // Folded: a scheduler's own invariant opens where it is named.
  ghost predicate CoreWf(c: Core) {
    && 0 !in Seen(c)
    && match c
       case Fair(fleet, _) => FR.Kept(fleet)
       case Staircase(s) => SR.Kept(s)
       case RoundRobin(queue, out, seen, _) =>
         forall p :: p in multiset(queue) + out ==> (multiset(queue) + out)[p] == 1 && p in seen
  }

  // What the job out under this pid was granted.
  function Granted(c: Core, pid: nat): nat {
    match c
    case Fair(fleet, _) => if pid in fleet.out then fleet.out[pid].runtime else 0
    case Staircase(s) => if s.out.Some? && s.out.value.pid == pid then s.out.value.lastTimeslice else 0
    case RoundRobin(_, _, _, ts) => ts
  }

  // The staircase hands out one job at a time; the others do not mind.
  predicate CanSelect(c: Core) {
    c.Staircase? ==> c.stairs.out.None? && SB.BothShaped(c.stairs.st)
  }

  ghost predicate IsOut(c: Core, pid: nat) { CoreWf(c) && pid in Out(c) }

  lemma OutIsOut(c: Core, pid: nat, remaining: nat)
    requires IsOut(c, pid) && remaining <= Granted(c, pid)
    ensures c.Fair? ==> FR.Enabled(c.fleet, FR.Return(pid, remaining)) && FR.Enabled(c.fleet, FR.Finish(pid))
    ensures c.Staircase? ==> c.stairs.out.Some? && c.stairs.out.value.pid == pid
                             && SR.Enabled(c.stairs, SR.Return(remaining)) && SR.Enabled(c.stairs, SR.Finish)
  {
    if c.Fair? {
      FR.FinishWf(c.fleet, pid);
    } else if c.Staircase? {
      assert SR.Wf(c.stairs);
    }
  }

  // With nothing out, a core may be asked.
  lemma NothingOut(c: Core)
    requires CoreWf(c) && Out(c) == multiset{}
    ensures CanSelect(c)
  {
    if c.Staircase? {
      assert SR.Wf(c.stairs);
      assert |Out(c)| == 0;
    }
  }

  // ---- the interface ----

  function Schedule(c: Core, pid: nat, prio: Priority): Core
    requires CoreWf(c) && pid > 0 && pid !in Seen(c)
  {
    match c
    case Fair(fleet, ts) => Fair(FR.Step(fleet, FR.Arrive(pid, prio), ts), ts)
    case Staircase(s) =>
      SR.KeptShaped(s);
      Staircase(SR.Step(s, SR.Arrive(pid, prio)))
    case RoundRobin(queue, out, seen, ts) => RoundRobin(queue + [pid], out, seen + {pid}, ts)
  }

  function Select(c: Core): (Core, Grant)
    requires CoreWf(c) && CanSelect(c)
  {
    match c
    case Fair(fleet, ts) =>
      var picked := FT.Select(fleet.tl, ts).1;
      (Fair(FR.Step(fleet, FR.Dispatch, ts), ts),
       if picked.Some? then Grant(picked.value.pid, picked.value.runtime) else IDLE)
    case Staircase(s) =>
      var picked := SB.Select(s.st).1;
      (Staircase(SR.Step(s, SR.Dispatch)),
       if picked.Some? then Grant(picked.value.pid, picked.value.lastTimeslice) else IDLE)
    case RoundRobin(queue, out, seen, ts) =>
      if queue == [] then (c, IDLE)
      else (RoundRobin(queue[1..], out + multiset{queue[0]}, seen, ts), Grant(queue[0], ts))
  }

  function Reschedule(c: Core, pid: nat, remaining: nat): Core
    requires IsOut(c, pid) && remaining <= Granted(c, pid)
  {
    OutIsOut(c, pid, remaining);
    match c
    case Fair(fleet, ts) => Fair(FR.Step(fleet, FR.Return(pid, remaining), ts), ts)
    case Staircase(s) => Staircase(SR.Step(s, SR.Return(remaining)))
    case RoundRobin(queue, out, seen, ts) => RoundRobin(queue + [pid], out - multiset{pid}, seen, ts)
  }

  function Unschedule(c: Core, pid: nat): Core
    requires IsOut(c, pid)
  {
    OutIsOut(c, pid, 0);
    match c
    case Fair(fleet, ts) => Fair(FR.Step(fleet, FR.Finish(pid), ts), ts)
    case Staircase(s) => Staircase(SR.Step(s, SR.Finish))
    case RoundRobin(queue, out, seen, ts) => RoundRobin(queue, out - multiset{pid}, seen, ts)
  }

  // ---- the contract: what each operation does to the two populations ----

  ghost predicate ScheduleDoes(c: Core, pid: nat, c': Core) {
    && CoreWf(c') && Seen(c') == Seen(c) + {pid}
    && Queued(c') == Queued(c) + multiset{pid} && Out(c') == Out(c)
    && forall p :: p in Out(c) ==> Granted(c', p) == Granted(c, p)
  }

  ghost predicate SelectDoes(c: Core, c': Core, g: Grant) {
    && CoreWf(c') && Seen(c') == Seen(c)
    && (g.pid == 0 ==> Queued(c') == Queued(c) && Out(c') == Out(c))
    && (g.pid != 0 ==> && g.pid in Queued(c) && g.pid in Out(c') && Granted(c', g.pid) == g.runtime
                       && Queued(c) == Queued(c') + multiset{g.pid}
                       && Out(c') == Out(c) + multiset{g.pid})
  }

  ghost predicate RescheduleDoes(c: Core, pid: nat, c': Core) {
    && CoreWf(c') && Seen(c') == Seen(c)
    && Queued(c') == Queued(c) + multiset{pid} && Out(c) == Out(c') + multiset{pid}
  }

  ghost predicate UnscheduleDoes(c: Core, pid: nat, c': Core) {
    && CoreWf(c') && Seen(c') == Seen(c)
    && Queued(c') == Queued(c) && Out(c) == Out(c') + multiset{pid}
  }

  // fair

  lemma FairSchedule(fleet: FR.Fleet, ts: nat, pid: nat, prio: Priority)
    requires CoreWf(Fair(fleet, ts)) && pid > 0 && pid !in fleet.seen
    ensures ScheduleDoes(Fair(fleet, ts), pid, Schedule(Fair(fleet, ts), pid, prio))
  {
    FR.StepKept(fleet, FR.Arrive(pid, prio), ts);
    FairArrive(fleet, pid, prio, ts);
  }

  lemma FairArrive(fleet: FR.Fleet, pid: nat, prio: Priority, ts: nat)
    requires FR.Kept(fleet) && FR.Enabled(fleet, FR.Arrive(pid, prio))
    ensures var fleet' := FR.Step(fleet, FR.Arrive(pid, prio), ts);
            && fleet'.seen == fleet.seen + {pid} && fleet'.out == fleet.out
            && multiset(TreePids(fleet'.tl.tree)) == multiset(TreePids(fleet.tl.tree)) + multiset{pid}
  {
    assert FR.Wf(fleet);
    var k, t := FR.ArriveKey(fleet, pid, prio, ts);
    assert pid !in TreePids(fleet.tl.tree);
    FiledPids(fleet.tl.tree, k, t);
    MultisetAdd(TreePids(fleet.tl.tree), pid);
  }

  lemma FairSelect(fleet: FR.Fleet, ts: nat)
    requires CoreWf(Fair(fleet, ts))
    ensures SelectDoes(Fair(fleet, ts), Select(Fair(fleet, ts)).0, Select(Fair(fleet, ts)).1)
    ensures Select(Fair(fleet, ts)).1.pid == 0 <==> Queued(Fair(fleet, ts)) == multiset{}
  {
    FR.StepKept(fleet, FR.Dispatch, ts);
    if fleet.tl.tree != map[] {
      FairTake(fleet, FT.LeastKey(fleet.tl.tree), ts);
    }
  }

  lemma FairTake(fleet: FR.Fleet, k: nat, ts: nat)
    requires FR.Kept(fleet) && k in fleet.tl.tree && k == FT.LeastKey(fleet.tl.tree)
    ensures var pid, fleet' := fleet.tl.tree[k].pid, FR.Step(fleet, FR.Dispatch, ts);
            && pid in fleet.seen && pid in fleet'.out
            && pid in multiset(TreePids(fleet.tl.tree))
            && multiset(TreePids(fleet.tl.tree)) == multiset(TreePids(fleet'.tl.tree)) + multiset{pid}
            && multiset(fleet'.out.Keys) == multiset(fleet.out.Keys) + multiset{pid}
  {
    assert FR.Wf(fleet);
    var pid, fleet' := fleet.tl.tree[k].pid, FR.Step(fleet, FR.Dispatch, ts);
    TakenPids(fleet.tl.tree, k);
    MultisetAdd(TreePids(fleet.tl.tree - {k}), pid);
    MultisetAdd(fleet.out.Keys, pid);
    assert fleet'.out.Keys == fleet.out.Keys + {pid};
  }

  lemma FairReschedule(fleet: FR.Fleet, ts: nat, pid: nat, remaining: nat)
    requires IsOut(Fair(fleet, ts), pid) && remaining <= Granted(Fair(fleet, ts), pid)
    ensures RescheduleDoes(Fair(fleet, ts), pid, Reschedule(Fair(fleet, ts), pid, remaining))
  {
    OutIsOut(Fair(fleet, ts), pid, remaining);
    FR.StepKept(fleet, FR.Return(pid, remaining), ts);
    FairGiveBack(fleet, pid, remaining, ts);
  }

  lemma FairGiveBack(fleet: FR.Fleet, pid: nat, remaining: nat, ts: nat)
    requires FR.Kept(fleet) && FR.Enabled(fleet, FR.Return(pid, remaining))
    ensures var fleet' := FR.Step(fleet, FR.Return(pid, remaining), ts);
            && fleet'.seen == fleet.seen
            && multiset(TreePids(fleet'.tl.tree)) == multiset(TreePids(fleet.tl.tree)) + multiset{pid}
            && multiset(fleet.out.Keys) == multiset(fleet'.out.Keys) + multiset{pid}
  {
    assert FR.Wf(fleet);
    var k := FR.ReturnKey(fleet, pid, remaining, ts);
    FiledPids(fleet.tl.tree, k, fleet.out[pid].(timebase := k));
    MultisetAdd(TreePids(fleet.tl.tree), pid);
    assert (fleet.out - {pid}).Keys == fleet.out.Keys - {pid};
    MultisetAdd(fleet.out.Keys - {pid}, pid);
  }

  lemma FairUnschedule(fleet: FR.Fleet, ts: nat, pid: nat)
    requires IsOut(Fair(fleet, ts), pid)
    ensures UnscheduleDoes(Fair(fleet, ts), pid, Unschedule(Fair(fleet, ts), pid))
  {
    OutIsOut(Fair(fleet, ts), pid, 0);
    FR.StepKept(fleet, FR.Finish(pid), ts);
    assert (fleet.out - {pid}).Keys == fleet.out.Keys - {pid};
  }

  // staircase

  lemma StaircaseSchedule(s: SR.Stairs, pid: nat, prio: Priority)
    requires CoreWf(Staircase(s)) && pid > 0 && pid !in s.seen
    ensures ScheduleDoes(Staircase(s), pid, Schedule(Staircase(s), pid, prio))
  {
    SR.KeptShaped(s);
    SR.StepKept(s, SR.Arrive(pid, prio));
    StaircaseArrive(s, pid, prio);
  }

  lemma StaircaseArrive(s: SR.Stairs, pid: nat, prio: Priority)
    requires SR.Enabled(s, SR.Arrive(pid, prio))
    ensures var s' := SR.Step(s, SR.Arrive(pid, prio));
            && s'.seen == s.seen + {pid} && s'.out == s.out
            && Queued(Staircase(s')) == Queued(Staircase(s)) + multiset{pid}
  {
    SR.ArriveBlocks(s, pid, prio);
    AddFirst(SR.BlockPids(s.st.active), SR.BlockPids(s.st.exhausted), multiset{pid});
  }

  lemma StaircaseSelect(s: SR.Stairs)
    requires CoreWf(Staircase(s)) && CanSelect(Staircase(s))
    ensures SelectDoes(Staircase(s), Select(Staircase(s)).0, Select(Staircase(s)).1)
  {
    SR.StepKept(s, SR.Dispatch);
    StaircaseTake(s);
  }

  // Swapping the blocks and handing a job out only moves pids about; the job handed out has
  // a pid, since every pid seen has.
  lemma StaircaseTake(s: SR.Stairs)
    requires SR.Kept(s) && SR.Enabled(s, SR.Dispatch)
    ensures var s', picked := SR.Step(s, SR.Dispatch), SB.Select(s.st).1;
            && s'.seen == s.seen && s'.out == picked
            && Queued(Staircase(s)) == Queued(Staircase(s')) + Out(Staircase(s')) && Out(Staircase(s)) == multiset{}
            && (picked.Some? ==> picked.value.pid in s.seen && picked.value.pid in Queued(Staircase(s)))
  {
    assert SR.Wf(s);
    SR.DispatchWf(s);
    var s' := SR.Step(s, SR.Dispatch);
    assert SR.AllPids(s') == Queued(Staircase(s')) + Out(Staircase(s'));
    assert SR.AllPids(s) == Queued(Staircase(s)) + multiset{};
    if s'.out.Some? {
      assert s'.out.value.pid in SR.AllPids(s');
    }
  }

  lemma StaircaseReschedule(s: SR.Stairs, pid: nat, remaining: nat)
    requires IsOut(Staircase(s), pid) && remaining <= Granted(Staircase(s), pid)
    ensures RescheduleDoes(Staircase(s), pid, Reschedule(Staircase(s), pid, remaining))
  {
    OutIsOut(Staircase(s), pid, remaining);
    SR.StepKept(s, SR.Return(remaining));
    StaircaseGiveBack(s, remaining);
  }

  lemma StaircaseGiveBack(s: SR.Stairs, remaining: nat)
    requires SR.Enabled(s, SR.Return(remaining))
    ensures var s', pid := SR.Step(s, SR.Return(remaining)), s.out.value.pid;
            && s'.seen == s.seen && s'.out.None?
            && Queued(Staircase(s')) == Queued(Staircase(s)) + multiset{pid}
            && Out(Staircase(s)) == Out(Staircase(s')) + multiset{pid}
  {
    SR.ReturnBlocks(s, remaining);
    AddLast(SR.BlockPids(s.st.active), SR.BlockPids(s.st.exhausted), multiset{s.out.value.pid});
  }

  lemma StaircaseUnschedule(s: SR.Stairs, pid: nat)
    requires IsOut(Staircase(s), pid)
    ensures UnscheduleDoes(Staircase(s), pid, Unschedule(Staircase(s), pid))
  {
    OutIsOut(Staircase(s), pid, 0);
    SR.StepKept(s, SR.Finish);
  }

  // round robin

  lemma RobinSelect(c: Core)
    requires c.RoundRobin? && CoreWf(c) && c.queue != []
    ensures SelectDoes(c, Select(c).0, Select(c).1)
  {
    var p := c.queue[0];
    assert c.queue == [p] + c.queue[1..];
    assert p in multiset(c.queue) + c.out;
    assert multiset(c.queue[1..]) + (c.out + multiset{p}) == multiset(c.queue) + c.out;
  }

  lemma RobinReschedule(c: Core, pid: nat, remaining: nat)
    requires c.RoundRobin? && IsOut(c, pid) && remaining <= Granted(c, pid)
    ensures RescheduleDoes(c, pid, Reschedule(c, pid, remaining))
  {
    RobinBack(c.queue, c.out, pid);
  }

  lemma RobinBack(queue: seq<nat>, out: multiset<nat>, pid: nat)
    requires pid in out
    ensures multiset(queue + [pid]) == multiset(queue) + multiset{pid}
    ensures out == (out - multiset{pid}) + multiset{pid}
    ensures multiset(queue + [pid]) + (out - multiset{pid}) == multiset(queue) + out
  {
    AddFirst(multiset(queue), out - multiset{pid}, multiset{pid});
    AddLast(multiset(queue), out - multiset{pid}, multiset{pid});
  }

  lemma RobinUnschedule(c: Core, pid: nat)
    requires c.RoundRobin? && IsOut(c, pid)
    ensures UnscheduleDoes(c, pid, Unschedule(c, pid))
  {
    RobinEnd(multiset(c.queue), c.out, pid);
  }

  lemma RobinEnd(queue: multiset<nat>, out: multiset<nat>, pid: nat)
    requires pid in out
    ensures out == (out - multiset{pid}) + multiset{pid}
    ensures forall p :: p in queue + (out - multiset{pid}) ==>
              p in queue + out && 0 < (queue + (out - multiset{pid}))[p] <= (queue + out)[p]
  {
  }

  /** Every scheduler queues exactly the job scheduled; */
  lemma ScheduleContract(c: Core, pid: nat, prio: Priority)
    requires CoreWf(c) && pid > 0 && pid !in Seen(c)
    ensures ScheduleDoes(c, pid, Schedule(c, pid, prio))
  {
    match c
    case Fair(fleet, ts) => FairSchedule(fleet, ts, pid, prio);
    case Staircase(s) => StaircaseSchedule(s, pid, prio);
    case RoundRobin(queue, out, seen, ts) =>
      assert pid !in multiset(queue) + out;
      assert multiset(queue + [pid]) + out == multiset(queue) + out + multiset{pid};
  }

  /** select moves one queued job out, or reports idle and moves none; fair and round robin
      report idle only when nothing is queued; */
  lemma SelectContract(c: Core)
    requires CoreWf(c) && CanSelect(c)
    ensures SelectDoes(c, Select(c).0, Select(c).1)
    ensures !c.Staircase? ==> (Select(c).1.pid == 0 <==> Queued(c) == multiset{})
  {
    match c
    case Fair(fleet, ts) => FairSelect(fleet, ts);
    case Staircase(s) => StaircaseSelect(s);
    case RoundRobin(queue, _, _, _) => if queue != [] { RobinSelect(c); }
  }

  /** reschedule moves the job back; */
  lemma RescheduleContract(c: Core, pid: nat, remaining: nat)
    requires IsOut(c, pid) && remaining <= Granted(c, pid)
    ensures RescheduleDoes(c, pid, Reschedule(c, pid, remaining))
  {
    match c
    case Fair(fleet, ts) => FairReschedule(fleet, ts, pid, remaining);
    case Staircase(s) => StaircaseReschedule(s, pid, remaining);
    case RoundRobin(_, _, _, _) => RobinReschedule(c, pid, remaining);
  }

  /** unschedule forgets it. */
  lemma UnscheduleContract(c: Core, pid: nat)
    requires IsOut(c, pid)
    ensures UnscheduleDoes(c, pid, Unschedule(c, pid))
  {
    match c
    case Fair(fleet, ts) => FairUnschedule(fleet, ts, pid);
    case Staircase(s) => StaircaseUnschedule(s, pid);
    case RoundRobin(_, _, _, _) => RobinUnschedule(c, pid);
  }

  /** A selection and its reschedule are one turn of the queue, whatever else is out, and the
      job handed out is the one in front; `RoundRobin.RotationLaw` says what k turns do. */
  lemma RobinTurn(c: Core, remaining: nat)
    requires c.RoundRobin? && CoreWf(c) && c.queue != [] && remaining <= c.ts
    ensures Select(c).1 == Grant(c.queue[0], c.ts)
    ensures IsOut(Select(c).0, c.queue[0])
    ensures Reschedule(Select(c).0, c.queue[0], remaining) == c.(queue := RR.Turn(c.queue))
  {
    RobinSelect(c);
  }

  /** No pid is in two places: queued and outstanding together hold each at most once. */
  lemma OnePlace(c: Core, p: nat)
    requires CoreWf(c)
    ensures (Queued(c) + Out(c))[p] <= 1
    ensures p in Queued(c) + Out(c) ==> p in Seen(c)
  {
    match c
    case Fair(fleet, _) => assert FR.Wf(fleet);
    case Staircase(s) => assert SR.Wf(s);
    case RoundRobin(_, _, _, _) =>
  }
}
