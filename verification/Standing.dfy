/** What a yarn's priority gives it for as long as it lives, and what a slice costs it, on
    each of the three schedulers. */
module Standing {
  import opened Scheduling
  import opened Schedulers
  import FT = FairTimeline
  import FR = FairRuns
  import SB = StaircaseBlocks
  import SR = StaircaseRuns

  // ---- the standing of a yarn ----

  ghost predicate InTree(tree: map<nat, FT.Task>, p: nat, weight: nat) {
    exists k :: k in tree && tree[k].pid == p && tree[k].weight == weight
  }

  ghost predicate InBlock(b: SB.Block, p: nat, level: nat) {
    exists l, i :: 0 <= l < |b.queues| && 0 <= i < |b.queues[l]| && b.queues[l][i].pid == p
                   && b.queues[l][i].originalLevel == level
  }

  // A fair scheduler weighs it by its priority; a staircase has the level of its priority
  // down as its own.
  ghost predicate HasPriority(c: Core, p: nat, prio: Priority) {
    match c
    case Fair(fleet, _) =>
      || InTree(fleet.tl.tree, p, FT.WeightTenths(prio))
      || (p in fleet.out && fleet.out[p].weight == FT.WeightTenths(prio))
    case Staircase(s) =>
      || InBlock(s.st.active, p, SB.StartLevel(prio)) || InBlock(s.st.exhausted, p, SB.StartLevel(prio))
      || (s.out.Some? && s.out.value.pid == p && s.out.value.originalLevel == SB.StartLevel(prio))
    case RoundRobin(queue, out, _, _) => p in queue || p in out
  }

  // Folded: it opens where HasPriority is named.
  ghost predicate Stands(c: Core, p: nat, prio: Priority) {
    forall d {:trigger HasPriority(d, p, prio)} :: d == c ==> HasPriority(d, p, prio)
  }

  // ---- how a yarn joins ----

  // A fair scheduler files it above the least key, with its weight; a staircase queues it
  // last on the level of its priority, with a whole timeslice; round robin queues it last.
  ghost predicate JoinsAs(c: Core, pid: nat, prio: Priority, c': Core) {
    match c
    case Fair(fleet, ts) =>
      var least := if fleet.tl.tree == map[] then 0 else FT.LeastKey(fleet.tl.tree);
      var k, w := FT.LeastFree(fleet.tl.tree, least + 2 * FT.MIN_GRANULARITY + fleet.tl.offset), FT.WeightTenths(prio);
      var tl := FT.Timeline(fleet.tl.tree[k := FT.Task(pid, 0, k, w)], fleet.tl.offset + FT.MIN_GRANULARITY,
                            fleet.tl.load + w);
      c' == Fair(FR.Fleet(tl, fleet.out, fleet.seen + {pid}), ts)
    case Staircase(s) =>
      var l, ts := SB.StartLevel(prio), s.st.timeslice;
      && l < |s.st.active.queues|
      && var queues := s.st.active.queues[l := s.st.active.queues[l] + [SB.Entry(pid, ts, 0, l, l)]];
         c' == Staircase(s.(st := s.st.(active := s.st.active.(queues := queues)), seen := s.seen + {pid}))
    case RoundRobin(queue, out, seen, ts) => c' == RoundRobin(queue + [pid], out, seen + {pid}, ts)
  }

  ghost predicate Joins(c: Core, pid: nat, prio: Priority, c': Core) {
    forall d {:trigger JoinsAs(c, pid, prio, d)} :: d == c' ==> JoinsAs(c, pid, prio, d)
  }

  /** On every scheduler a yarn joins with its own priority, */
  lemma ScheduleJoins(c: Core, pid: nat, prio: Priority)
    requires CoreWf(c) && pid > 0 && pid !in Seen(c)
    ensures Joins(c, pid, prio, Schedule(c, pid, prio))
  {
    var c' := Schedule(c, pid, prio);
    if c.Fair? {
      var k, t := FR.ArriveKey(c.fleet, pid, prio, c.ts);
      FairFiles(c.fleet, pid, prio, c.ts);
    } else if c.Staircase? {
      SR.KeptShaped(c.stairs);
    }
    assert JoinsAs(c, pid, prio, c');
  }

  // Yarns from pid lo on, one after the other.
  ghost predicate JoinInOrder(c: Core, lo: nat, prios: seq<Priority>, c': Core)
    decreases |prios|
  {
    if prios == [] then c' == c
    else exists d :: Joins(c, lo, prios[0], d) && JoinInOrder(d, lo + 1, prios[1..], c')
  }

  lemma {:induction false} JoinsLast(c: Core, lo: nat, prios: seq<Priority>, d: Core, prio: Priority, e: Core)
    requires JoinInOrder(c, lo, prios, d) && Joins(d, lo + |prios|, prio, e)
    ensures JoinInOrder(c, lo, prios + [prio], e)
    decreases |prios|
  {
    if prios == [] {
      assert (prios + [prio])[1..] == [];
      assert Joins(c, lo, (prios + [prio])[0], e) && JoinInOrder(e, lo + 1, (prios + [prio])[1..], e);
    } else {
      var c1 :| Joins(c, lo, prios[0], c1) && JoinInOrder(c1, lo + 1, prios[1..], d);
      JoinsLast(c1, lo + 1, prios[1..], d, prio, e);
      assert (prios + [prio])[1..] == prios[1..] + [prio];
      assert Joins(c, lo, (prios + [prio])[0], c1) && JoinInOrder(c1, lo + 1, (prios + [prio])[1..], e);
    }
  }

  // Folded: it opens where JoinInOrder is named.
  ghost predicate InOrder(c: Core, lo: nat, prios: seq<Priority>, c': Core) {
    forall d {:trigger JoinInOrder(c, lo, prios, d)} :: d == c' ==> JoinInOrder(c, lo, prios, d)
  }

  lemma NoneInOrder(c: Core, lo: nat)
    ensures InOrder(c, lo, [], c)
  {
  }

  lemma FirstInOrder(c: Core, lo: nat, prios: seq<Priority>, d: Core, e: Core)
    requires prios != [] && Joins(c, lo, prios[0], d) && InOrder(d, lo + 1, prios[1..], e)
    ensures InOrder(c, lo, prios, e)
  {
    assert JoinInOrder(d, lo + 1, prios[1..], e);
    assert JoinInOrder(c, lo, prios, e);
  }

  lemma LastInOrder(c: Core, lo: nat, prios: seq<Priority>, d: Core, prio: Priority, e: Core)
    requires InOrder(c, lo, prios, d) && Joins(d, lo + |prios|, prio, e)
    ensures InOrder(c, lo, prios + [prio], e)
  {
    assert JoinInOrder(c, lo, prios, d);
    JoinsLast(c, lo, prios, d, prio, e);
    assert JoinInOrder(c, lo, prios + [prio], e);
  }

  lemma FairFiles(fleet: FR.Fleet, pid: nat, prio: Priority, ts: nat)
    requires FR.Enabled(fleet, FR.Arrive(pid, prio))
    ensures var least := if fleet.tl.tree == map[] then 0 else FT.LeastKey(fleet.tl.tree);
            var w := FT.WeightTenths(prio);
            var k := FT.LeastFree(fleet.tl.tree, least + 2 * FT.MIN_GRANULARITY + fleet.tl.offset);
            var tl := FT.Timeline(fleet.tl.tree[k := FT.Task(pid, 0, k, w)], fleet.tl.offset + FT.MIN_GRANULARITY,
                                  fleet.tl.load + w);
            FR.Step(fleet, FR.Arrive(pid, prio), ts) == FR.Fleet(tl, fleet.out, fleet.seen + {pid})
  {
    FR.ScheduleIsInsert(fleet.tl, pid, prio);
    var least := if fleet.tl.tree == map[] then 0 else FT.LeastKey(fleet.tl.tree);
    var k := FR.InsertFacts(fleet.tl, FT.Task(pid, 0, 0, FT.WeightTenths(prio)), least);
  }

  lemma TreeGrows(tree: map<nat, FT.Task>, k: nat, t: FT.Task, p: nat, weight: nat)
    requires k !in tree && (InTree(tree, p, weight) || (t.pid == p && t.weight == weight))
    ensures InTree(tree[k := t], p, weight)
  {
    var tree' := tree[k := t];
    if InTree(tree, p, weight) {
      var j :| j in tree && tree[j].pid == p && tree[j].weight == weight;
      assert j in tree' && tree'[j] == tree[j];
    } else {
      assert k in tree' && tree'[k] == t;
    }
  }

  lemma TreeShrinks(tree: map<nat, FT.Task>, k: nat, p: nat, weight: nat)
    requires k in tree && InTree(tree, p, weight) && !(tree[k].pid == p && tree[k].weight == weight)
    ensures InTree(tree - {k}, p, weight)
  {
    var j :| j in tree && tree[j].pid == p && tree[j].weight == weight;
    assert j in tree - {k} && (tree - {k})[j] == tree[j];
  }

  lemma BlockGrows(b: SB.Block, l: nat, e: SB.Entry, p: nat, level: nat)
    requires SB.Shaped(b) && l < SB.LAYERS && (InBlock(b, p, level) || (e.pid == p && e.originalLevel == level))
    ensures InBlock(SB.Append(b, l, e), p, level)
  {
    var b' := SB.Append(b, l, e);
    if InBlock(b, p, level) {
      var m, i :| 0 <= m < |b.queues| && 0 <= i < |b.queues[m]| && b.queues[m][i].pid == p
                  && b.queues[m][i].originalLevel == level;
      assert b'.queues[m][i] == b.queues[m][i];
    } else {
      assert b'.queues[l][|b.queues[l]|] == e;
    }
  }

  lemma BlockShrinks(b: SB.Block, l: nat, p: nat, level: nat)
    requires SB.Shaped(b) && l < SB.LAYERS && b.queues[l] != [] && InBlock(b, p, level)
    requires !(b.queues[l][0].pid == p && b.queues[l][0].originalLevel == level)
    ensures InBlock(SB.TakeHead(b, l), p, level)
  {
    var b' := SB.TakeHead(b, l);
    var m, i :| 0 <= m < |b.queues| && 0 <= i < |b.queues[m]| && b.queues[m][i].pid == p
                && b.queues[m][i].originalLevel == level;
    assert m == l ==> i > 0 && b'.queues[m][i - 1] == b.queues[m][i];
    assert m != l ==> b'.queues[m][i] == b.queues[m][i];
  }

  /** and it and every other keep theirs. */
  lemma ScheduleStands(c: Core, pid: nat, prio: Priority, p: nat, q: Priority)
    requires CoreWf(c) && pid > 0 && pid !in Seen(c) && (Stands(c, p, q) || (p == pid && q == prio))
    ensures Stands(Schedule(c, pid, prio), p, q)
  {
    assert (p == pid && q == prio) || HasPriority(c, p, q);
    var c' := Schedule(c, pid, prio);
    if c.Fair? {
      FairFiles(c.fleet, pid, prio, c.ts);
      if InTree(c.fleet.tl.tree, p, FT.WeightTenths(q)) || (p == pid && q == prio) {
        FairArrives(c.fleet, pid, prio, c.ts, p, q);
      }
    } else if c.Staircase? {
      SR.KeptShaped(c.stairs);
      StairsArrive(c.stairs, pid, prio, p, q);
    } else {
      assert p == pid ==> c'.queue[|c.queue|] == pid;
      assert p in c.queue ==> p in c'.queue;
    }
    assert HasPriority(c', p, q);
  }

  lemma FairArrives(fleet: FR.Fleet, pid: nat, prio: Priority, ts: nat, p: nat, q: Priority)
    requires FR.Enabled(fleet, FR.Arrive(pid, prio))
    requires InTree(fleet.tl.tree, p, FT.WeightTenths(q)) || (p == pid && q == prio)
    ensures InTree(FR.Step(fleet, FR.Arrive(pid, prio), ts).tl.tree, p, FT.WeightTenths(q))
  {
    var k, t := FR.ArriveKey(fleet, pid, prio, ts);
    TreeGrows(fleet.tl.tree, k, t, p, FT.WeightTenths(q));
  }

  lemma StairsArrive(s: SR.Stairs, pid: nat, prio: Priority, p: nat, q: Priority)
    requires SR.Enabled(s, SR.Arrive(pid, prio))
    ensures var s' := SR.Step(s, SR.Arrive(pid, prio));
            && s'.out == s.out && s'.st.exhausted == s.st.exhausted
            && (InBlock(s.st.active, p, SB.StartLevel(q)) || (p == pid && q == prio) ==>
                  InBlock(s'.st.active, p, SB.StartLevel(q)))
  {
    var l := SB.StartLevel(prio);
    if InBlock(s.st.active, p, SB.StartLevel(q)) || (p == pid && q == prio) {
      BlockGrows(s.st.active, l, SB.Entry(pid, s.st.timeslice, 0, l, l), p, SB.StartLevel(q));
    }
  }

  lemma FairTakes(fleet: FR.Fleet, ts: nat, p: nat, weight: nat)
    requires FR.Wf(fleet)
    requires InTree(fleet.tl.tree, p, weight) || (p in fleet.out && fleet.out[p].weight == weight)
    ensures var fleet' := FR.Step(fleet, FR.Dispatch, ts);
            InTree(fleet'.tl.tree, p, weight) || (p in fleet'.out && fleet'.out[p].weight == weight)
  {
    var tree := fleet.tl.tree;
    if tree != map[] {
      var k := FT.LeastKey(tree);
      if InTree(tree, p, weight) && !(tree[k].pid == p && tree[k].weight == weight) {
        TreeShrinks(tree, k, p, weight);
      }
    }
  }

  lemma TakeStands(st: SB.Staircase, l: nat, p: nat, level: nat)
    requires SB.BothShaped(st) && SB.Eligible(st.active, l)
    requires InBlock(st.active, p, level) || InBlock(st.exhausted, p, level)
    ensures var (st', je) := SB.Take(st, l);
            || InBlock(st'.active, p, level) || InBlock(st'.exhausted, p, level)
            || (je.pid == p && je.originalLevel == level)
  {
    var head := st.active.queues[l][0];
    if InBlock(st.active, p, level) && !(head.pid == p && head.originalLevel == level) {
      BlockShrinks(st.active, l, p, level);
    }
  }

  lemma StairsTake(s: SR.Stairs, p: nat, level: nat)
    requires SR.Enabled(s, SR.Dispatch)
    requires InBlock(s.st.active, p, level) || InBlock(s.st.exhausted, p, level)
    ensures var s' := SR.Step(s, SR.Dispatch);
            || InBlock(s'.st.active, p, level) || InBlock(s'.st.exhausted, p, level)
            || (s'.out.Some? && s'.out.value.pid == p && s'.out.value.originalLevel == level)
  {
    if SB.Runnable(s.st.active) {
      TakeStands(s.st, SB.FirstEligible(s.st.active), p, level);
    } else if SB.Runnable(s.st.exhausted) {
      TakeStands(SB.Swapped(s.st), SB.FirstEligible(s.st.exhausted), p, level);
    }
  }

  lemma SelectStands(c: Core, p: nat, q: Priority)
    requires CoreWf(c) && CanSelect(c) && Stands(c, p, q)
    ensures Stands(Select(c).0, p, q)
  {
    assert HasPriority(c, p, q);
    var c' := Select(c).0;
    if c.Fair? {
      assert FR.Wf(c.fleet);
      FairTakes(c.fleet, c.ts, p, FT.WeightTenths(q));
    } else if c.Staircase? {
      StairsTake(c.stairs, p, SB.StartLevel(q));
    } else if c.queue != [] {
      assert c.queue == [c.queue[0]] + c.queue[1..];
    }
    assert HasPriority(c', p, q);
  }

  lemma RescheduleStands(c: Core, pid: nat, remaining: nat, p: nat, q: Priority)
    requires IsOut(c, pid) && remaining <= Granted(c, pid) && Stands(c, p, q)
    ensures Stands(Reschedule(c, pid, remaining), p, q)
  {
    OutIsOut(c, pid, remaining);
    assert HasPriority(c, p, q);
    var c' := Reschedule(c, pid, remaining);
    if c.Fair? {
      assert FR.Wf(c.fleet);
      var k := FR.ReturnKey(c.fleet, pid, remaining, c.ts);
      var t := c.fleet.out[pid].(timebase := k);
      if InTree(c.fleet.tl.tree, p, FT.WeightTenths(q)) || (t.pid == p && t.weight == FT.WeightTenths(q)) {
        TreeGrows(c.fleet.tl.tree, k, t, p, FT.WeightTenths(q));
      }
    } else if c.Staircase? {
      StairsReturn(c.stairs, remaining, p, SB.StartLevel(q));
    } else {
      RobinKeeps(c.queue, c.out, pid, p);
    }
    assert HasPriority(c', p, q);
  }

  lemma RobinKeeps(queue: seq<nat>, out: multiset<nat>, pid: nat, p: nat)
    requires p in queue || p in out
    ensures p in queue + [pid] || p in out - multiset{pid}
  {
  }

  lemma StairsReturn(s: SR.Stairs, remaining: nat, p: nat, level: nat)
    requires SR.Enabled(s, SR.Return(remaining))
    requires InBlock(s.st.active, p, level) || InBlock(s.st.exhausted, p, level)
             || (s.out.value.pid == p && s.out.value.originalLevel == level)
    ensures var s' := SR.Step(s, SR.Return(remaining));
            InBlock(s'.st.active, p, level) || InBlock(s'.st.exhausted, p, level)
  {
    var je := s.out.value;
    var used := je.lastTimeslice - remaining;
    var e := SB.Stepped(je, used, s.st.timeslice);
    if InBlock(s.st.active, p, level) {
      assert SB.Spend(s.st.active, je.lastLevel, used).queues == s.st.active.queues;
    } else {
      BlockGrows(s.st.exhausted, e.lastLevel, e, p, level);
    }
  }

  lemma UnscheduleStands(c: Core, pid: nat, p: nat, q: Priority)
    requires IsOut(c, pid) && p != pid && Stands(c, p, q)
    ensures Stands(Unschedule(c, pid), p, q)
  {
    OutIsOut(c, pid, 0);
    assert HasPriority(c, p, q);
    var c' := Unschedule(c, pid);
    if c.Staircase? && InBlock(c.stairs.st.active, p, SB.StartLevel(q)) {
      assert c'.stairs.st.active.queues == c.stairs.st.active.queues;
    }
    assert HasPriority(c', p, q);
  }

  // ---- what a slice costs ----

  // The job pid comes back having used that much of its slice: a fair scheduler files it
  // that much over its weight above its old key, the next key free; a staircase takes it
  // from the budget of the level it ran at.
  ghost predicate ChargedAs(c: Core, pid: nat, used: nat, c': Core) {
    match c
    case Fair(fleet, ts) =>
      && pid in fleet.out && fleet.out[pid].weight > 0
      && var t := fleet.out[pid];
         var k := FT.LeastFree(fleet.tl.tree, t.timebase + 2 * FT.MIN_GRANULARITY + fleet.tl.offset
                                              + FT.Charge(used, t.weight));
         var tl := FT.Timeline(fleet.tl.tree[k := t.(timebase := k)], 0, fleet.tl.load);
         c' == Fair(FR.Fleet(tl, fleet.out - {pid}, fleet.seen), ts)
    case Staircase(s) =>
      && c'.Staircase? && s.out.Some? && s.out.value.pid == pid && TookFrom(s, used, c'.stairs)
      && c'.stairs.out == None && c'.stairs.st.active.queues == s.st.active.queues
    case RoundRobin(queue, out, seen, ts) => c' == RoundRobin(queue + [pid], out - multiset{pid}, seen, ts)
  }

  // The budget of the level the job out ran at.
  ghost predicate TookFrom(s: SR.Stairs, used: nat, s': SR.Stairs)
    requires s.out.Some?
  {
    var l, before, after := s.out.value.lastLevel, s.st.active.timeslices, s'.st.active.timeslices;
    && s'.charged == s.charged + used
    && l < |before| && used <= before[l] && after == before[l := before[l] - used]
    && s'.st.exhausted.timeslices == s.st.exhausted.timeslices
  }

  ghost predicate Charges(c: Core, pid: nat, used: nat, c': Core) {
    forall d {:trigger ChargedAs(c, pid, used, d)} :: d == c' ==> ChargedAs(c, pid, used, d)
  }

  /** A job that comes back is charged exactly what it used of its slice. */
  lemma RescheduleCharges(c: Core, pid: nat, remaining: nat)
    requires IsOut(c, pid) && remaining <= Granted(c, pid)
    ensures Charges(c, pid, Granted(c, pid) - remaining, Reschedule(c, pid, remaining))
  {
    OutIsOut(c, pid, remaining);
    if c.Fair? {
      var k := FR.ReturnKey(c.fleet, pid, remaining, c.ts);
      var base := FR.ReturnIsInsert(c.fleet, pid, remaining, c.ts);
    }
    assert ChargedAs(c, pid, Granted(c, pid) - remaining, Reschedule(c, pid, remaining));
  }

  // A job that ends pays for its whole slice on a staircase, and nothing is filed.
  ghost predicate EndsAs(c: Core, pid: nat, c': Core) {
    match c
    case Fair(fleet, ts) =>
      && pid in fleet.out && fleet.out[pid].weight <= fleet.tl.load
      && var tl := fleet.tl.(load := fleet.tl.load - fleet.out[pid].weight);
         c' == Fair(FR.Fleet(tl, fleet.out - {pid}, fleet.seen), ts)
    case Staircase(s) =>
      && c'.Staircase? && s.out.Some? && s.out.value.pid == pid && TookFrom(s, s.out.value.lastTimeslice, c'.stairs)
      && c'.stairs.out == None && c'.stairs.st.active.queues == s.st.active.queues
      && c'.stairs.st.exhausted == s.st.exhausted
    case RoundRobin(queue, out, seen, ts) => c' == RoundRobin(queue, out - multiset{pid}, seen, ts)
  }

  ghost predicate Ending(c: Core, pid: nat, c': Core) {
    forall d {:trigger EndsAs(c, pid, d)} :: d == c' ==> EndsAs(c, pid, d)
  }

  lemma UnscheduleEnds(c: Core, pid: nat)
    requires IsOut(c, pid)
    ensures Ending(c, pid, Unschedule(c, pid))
  {
    OutIsOut(c, pid, 0);
    assert EndsAs(c, pid, Unschedule(c, pid));
  }

  // ---- while a job runs ----

  // The jobs out as they were, and nothing charged.
  ghost predicate HeldAs(c: Core, c': Core) {
    match c
    case Fair(fleet, ts) => c'.Fair? && c'.fleet.out == fleet.out && c'.ts == ts
    case Staircase(s) => c'.Staircase? && c'.stairs.out == s.out && c'.stairs.charged == s.charged
    case RoundRobin(_, out, _, ts) => c'.RoundRobin? && c'.out == out && c'.ts == ts
  }

  ghost predicate Held(c: Core, c': Core) {
    forall d {:trigger HeldAs(c, d)} :: d == c' ==> HeldAs(c, d)
  }

  lemma HeldNow(c: Core)
    ensures Held(c, c)
  {
  }

  lemma HeldThrough(c: Core, d: Core, e: Core)
    requires Held(c, d) && Held(d, e)
    ensures Held(c, e)
  {
    assert HeldAs(c, d) && HeldAs(d, e);
    assert HeldAs(c, e);
  }

  /** Another yarn's arrival touches no job that is out. */
  lemma ScheduleHolds(c: Core, pid: nat, prio: Priority)
    requires CoreWf(c) && pid > 0 && pid !in Seen(c)
    ensures Held(c, Schedule(c, pid, prio))
  {
    if c.Staircase? {
      SR.KeptShaped(c.stairs);
    }
    assert HeldAs(c, Schedule(c, pid, prio));
  }
}
