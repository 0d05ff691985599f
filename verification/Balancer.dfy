/** Moving queued jobs from a busy core to an idle one: how far rebalancing gets, when it
    ends, and what it leaves alone. */
module Balancer {
  import opened Scheduling
  import opened Schedulers
  import opened Standing
  import FR = FairRuns

  // A source and a target core with their job counts.
  datatype Pair = Pair(src: Core, dst: Core, cs: nat, ct: nat)

  ghost predicate PairWf(p: Pair) {
    CoreWf(p.src) && CoreWf(p.dst) && !p.src.Staircase? && Seen(p.src) !! Seen(p.dst)
  }

  // A job that moves away is no longer one of this core's.
  function Forget(c: Core, pid: nat): Core {
    match c
    case Fair(fleet, ts) => Fair(fleet.(seen := fleet.seen - {pid}), ts)
    case Staircase(s) => Staircase(s.(seen := s.seen - {pid}))
    case RoundRobin(queue, out, seen, ts) => RoundRobin(queue, out, seen - {pid}, ts)
  }

  lemma ForgetKeeps(c: Core, pid: nat)
    requires CoreWf(c) && !c.Staircase? && pid !in Queued(c) && pid !in Out(c)
    ensures CoreWf(Forget(c, pid)) && Seen(Forget(c, pid)) == Seen(c) - {pid}
    ensures Queued(Forget(c, pid)) == Queued(c) && Out(Forget(c, pid)) == Out(c)
  {
    if c.Fair? {
      ForgetFair(c.fleet, pid);
    }
  }

  lemma ForgetFair(fleet: FR.Fleet, pid: nat)
    requires FR.Wf(fleet) && pid !in TreePids(fleet.tl.tree) && pid !in fleet.out
    ensures FR.Wf(fleet.(seen := fleet.seen - {pid}))
  {
    assert forall k :: k in fleet.tl.tree ==> fleet.tl.tree[k].pid in TreePids(fleet.tl.tree);
  }

  /** One hoist: the job the source would run next is scheduled on the target, at normal
      priority, and unscheduled here. An idle source moves nothing. */
  function Hoist(p: Pair): Pair
    requires PairWf(p) && p.cs > p.ct
  {
    SelectContract(p.src);
    var (src, g) := Select(p.src);
    if g.pid == 0 then p.(src := src)
    else
      OnePlace(p.src, g.pid);
      Pair(Forget(Unschedule(src, g.pid), g.pid), Schedule(p.dst, g.pid, Normal), p.cs - 1, p.ct + 1)
  }

  // Each scheduler call a hoist makes is one it may make.
  lemma HoistLegal(p: Pair)
    requires PairWf(p) && p.cs > p.ct
    ensures CanSelect(p.src)
    ensures var (src, g) := Select(p.src); g.pid != 0 ==> g.pid !in Seen(p.dst) && IsOut(src, g.pid)
  {
    SelectContract(p.src);
    OnePlace(p.src, Select(p.src).1.pid);
  }

  // What one hoist of pid does to the two cores.
  ghost predicate Moves(p: Pair, pid: nat, p': Pair) {
    && pid in Queued(p.src)
    && Queued(p.src) == Queued(p'.src) + multiset{pid}
    && Queued(p'.dst) == Queued(p.dst) + multiset{pid}
    && Out(p'.src) == Out(p.src) && Out(p'.dst) == Out(p.dst)
    && Seen(p'.src) == Seen(p.src) - {pid} && Seen(p'.dst) == Seen(p.dst) + {pid}
    && p'.src.Staircase? == p.src.Staircase? && p'.dst.Staircase? == p.dst.Staircase?
    && p'.cs == p.cs - 1 && p'.ct == p.ct + 1
  }

  lemma Gone(queued: multiset<nat>, out: multiset<nat>, pid: nat)
    requires pid in queued && (queued + out)[pid] <= 1
    ensures pid !in queued - multiset{pid} && pid !in out
  {
  }

  lemma TakeBack(a: multiset<nat>, b: multiset<nat>, q: multiset<nat>)
    requires a + q == b + q
    ensures a == b
  {
    assert a == a + q - q;
  }

  // What the source is left with once the job has been unscheduled.
  lemma HoistLeaves(c: Core, pid: nat) returns (left: Core)
    requires CoreWf(c) && !c.Staircase? && Queued(c) != multiset{} && pid == Select(c).1.pid
    ensures pid != 0 && pid in Queued(c) && pid in Seen(c) && IsOut(Select(c).0, pid)
    ensures left == Forget(Unschedule(Select(c).0, pid), pid) && CoreWf(left) && !left.Staircase?
    ensures Queued(c) == Queued(left) + multiset{pid} && Out(left) == Out(c) && Seen(left) == Seen(c) - {pid}
  {
    SelectContract(c);
    OnePlace(c, pid);
    Gone(Queued(c), Out(c), pid);
    var src := Select(c).0;
    UnscheduleContract(src, pid);
    left := Unschedule(src, pid);
    TakeBack(Out(left), Out(c), multiset{pid});
    assert Queued(left) == Queued(c) - multiset{pid};
    ForgetKeeps(left, pid);
    left := Forget(left, pid);
  }

  lemma HoistMoves(p: Pair)
    requires PairWf(p) && p.cs > p.ct && Queued(p.src) != multiset{}
    ensures PairWf(Hoist(p)) && Moves(p, Select(p.src).1.pid, Hoist(p))
    ensures Joins(p.dst, Select(p.src).1.pid, Normal, Hoist(p).dst)
  {
    var pid := Select(p.src).1.pid;
    var left := HoistLeaves(p.src, pid);
    ScheduleContract(p.dst, pid, Normal);
    ScheduleJoins(p.dst, pid, Normal);
  }

  // The jobs of the two cores together, the jobs each has out, and whether each is a
  // staircase.
  datatype Population = Population(queued: multiset<nat>, srcOut: multiset<nat>, dstOut: multiset<nat>, pids: set<nat>,
                                   srcStairs: bool, dstStairs: bool)

  ghost function Both(p: Pair): Population {
    Population(Queued(p.src) + Queued(p.dst), Out(p.src), Out(p.dst), Seen(p.src) + Seen(p.dst),
               p.src.Staircase?, p.dst.Staircase?)
  }

  lemma HoistIdle(p: Pair)
    requires PairWf(p) && p.cs > p.ct && Queued(p.src) == multiset{}
    ensures Hoist(p).cs == p.cs && Hoist(p).ct == p.ct && PairWf(Hoist(p))
    ensures Queued(Hoist(p).src) == multiset{} && Both(Hoist(p)) == Both(p)
  {
    SelectContract(p.src);
  }

  lemma HoistBusy(p: Pair)
    requires PairWf(p) && p.cs > p.ct && Queued(p.src) != multiset{}
    ensures Hoist(p).cs == p.cs - 1 && Hoist(p).ct == p.ct + 1 && PairWf(Hoist(p))
    ensures |Queued(Hoist(p).src)| == |Queued(p.src)| - 1 && Both(Hoist(p)) == Both(p)
  {
    HoistMoves(p);
    OnePlace(p.src, Select(p.src).1.pid);
    MovesPreserves(p, Select(p.src).1.pid, Hoist(p));
  }

  lemma MovesPreserves(p: Pair, pid: nat, p': Pair)
    requires Moves(p, pid, p') && pid in Seen(p.src)
    ensures Both(p') == Both(p) && |Queued(p'.src)| == |Queued(p.src)| - 1
  {
    assert Queued(p'.src) + Queued(p'.dst) == Queued(p'.src) + multiset{pid} + Queued(p.dst);
    assert |Queued(p.src)| == |Queued(p'.src)| + 1;
  }

  // One pass of the balancing loop.
  ghost predicate Passed(p: Pair, p': Pair) {
    PairWf(p) && p.cs > p.ct && p' == Hoist(p)
  }

  // The states of the loop so far, the first being p.
  ghost predicate IsRun(run: seq<Pair>, p: Pair) {
    && run != [] && run[0] == p
    && forall i :: 0 <= i < |run| - 1 ==> Passed(run[i], run[i + 1])
  }

  ghost function Last(run: seq<Pair>): Pair
    requires run != []
  {
    run[|run| - 1]
  }

  // Hoists needed to bring a source count down to the target's.
  function Needed(cs: nat, ct: nat): nat {
    if cs <= ct then 0 else CeilDiv(cs - ct, 2)
  }

  // Hoists made in n passes with q jobs queued.
  function Made(cs: nat, ct: nat, q: nat, n: nat): nat {
    Min(n, Min(Needed(cs, ct), q))
  }

  ghost predicate After(p: Pair, p': Pair, n: nat) {
    var m := Made(p.cs, p.ct, |Queued(p.src)|, n);
    && PairWf(p') && Both(p') == Both(p)
    && p'.cs == p.cs - m && p'.ct == p.ct + m && |Queued(p'.src)| == |Queued(p.src)| - m
  }

  lemma PassAfter(p: Pair, p': Pair, p'': Pair, n: nat)
    requires After(p, p', n) && Passed(p', p'')
    ensures After(p, p'', n + 1)
  {
    if Queued(p'.src) == multiset{} { HoistIdle(p'); } else { HoistBusy(p'); }
  }

  /** The state after n passes, exactly: one job has moved in each pass until the counts
      meet or the source's queue runs dry. */
  lemma {:induction false} RunExact(run: seq<Pair>, p: Pair, n: nat)
    requires PairWf(p) && IsRun(run, p) && n < |run|
    ensures After(p, run[n], n)
  {
    if n > 0 {
      RunExact(run, p, n - 1);
      assert Passed(run[n - 1], run[n - 1 + 1]);
      PassAfter(p, run[n - 1], run[n], n - 1);
    }
  }

  // No pass is made once the guard fails.
  lemma GoesOn(run: seq<Pair>, p: Pair, n: nat)
    requires IsRun(run, p) && n < |run|
    ensures n < |run| - 1 ==> run[n].cs > run[n].ct
  {
    if n < |run| - 1 {
      assert Passed(run[n], run[n + 1]);
    }
  }

  /** With enough jobs queued on the source, balancing takes exactly half the excess,
      rounded up: not one pass fewer or more, and then the target is level or one ahead.
      No job is lost or run, only moved. */
  lemma RebalanceExact(run: seq<Pair>, p: Pair)
    requires PairWf(p) && p.cs > p.ct && |Queued(p.src)| >= Needed(p.cs, p.ct) && IsRun(run, p)
    ensures var h, p' := Needed(p.cs, p.ct), Last(run);
            && |run| - 1 <= h
            && (p'.cs > p'.ct <==> |run| - 1 < h)
            && PairWf(p') && Both(p') == Both(p) && p'.cs + p'.ct == p.cs + p.ct
            && p'.cs - |Queued(p'.src)| == p.cs - |Queued(p.src)|
            && (|run| - 1 == h ==> p'.cs <= p'.ct <= p'.cs + 1)
  {
    RunExact(run, p, |run| - 1);
    var n := Min(Needed(p.cs, p.ct), |run| - 1);
    GoesOn(run, p, n);
    RunExact(run, p, n);
  }

  lemma RunEnd(run: seq<Pair>, p: Pair) returns (p': Pair)
    requires PairWf(p) && p.cs > p.ct && |Queued(p.src)| >= Needed(p.cs, p.ct) && IsRun(run, p)
    requires Last(run).cs <= Last(run).ct
    ensures p' == Last(run) && |run| == Needed(p.cs, p.ct) + 1
    ensures PairWf(p') && Both(p') == Both(p) && p'.cs + p'.ct == p.cs + p.ct && p'.cs <= p'.ct <= p'.cs + 1
    ensures p'.cs - |Queued(p'.src)| == p.cs - |Queued(p.src)|
  {
    RebalanceExact(run, p);
    p' := Last(run);
  }

  // The loop can always go on until its guard fails.
  lemma {:induction false} LongRun(p: Pair, n: nat) returns (run: seq<Pair>)
    requires PairWf(p)
    ensures IsRun(run, p) && (|run| == n + 1 || Last(run).cs <= Last(run).ct)
  {
    if n == 0 {
      run := [p];
    } else {
      run := LongRun(p, n - 1);
      if Last(run).cs > Last(run).ct {
        RunExact(run, p, |run| - 1);
        run := Extended(run, p);
      }
    }
  }

  lemma Extended(run: seq<Pair>, p: Pair) returns (run': seq<Pair>)
    requires IsRun(run, p) && PairWf(Last(run)) && Last(run).cs > Last(run).ct
    ensures IsRun(run', p) && |run'| == |run| + 1 && run' == run + [Hoist(Last(run))]
  {
    run' := run + [Hoist(Last(run))];
    forall i | 0 <= i < |run'| - 1 ensures Passed(run'[i], run'[i + 1]) {
      if i < |run| - 1 {
        assert Passed(run[i], run[i + 1]);
      }
    }
  }

  /** Balancing ends if and only if the source has that many jobs queued; otherwise it
      goes round for ever, moving nothing once the queue is dry. */
  lemma RebalanceEndsIff(p: Pair)
    requires PairWf(p) && p.cs > p.ct
    ensures (exists run :: IsRun(run, p) && Last(run).cs <= Last(run).ct) <==> |Queued(p.src)| >= Needed(p.cs, p.ct)
  {
    if |Queued(p.src)| >= Needed(p.cs, p.ct) {
      var run := LongRun(p, Needed(p.cs, p.ct));
      RebalanceExact(run, p);
      assert IsRun(run, p) && Last(run).cs <= Last(run).ct;
    } else {
      forall run | IsRun(run, p) ensures Last(run).cs > Last(run).ct {
        RunExact(run, p, |run| - 1);
      }
    }
  }

  /** When a count is the jobs queued and out, and at most one is out, a source with two
      jobs always has enough queued; a lone running job never has. */
  lemma CountTwoSuffices(p: Pair)
    requires PairWf(p) && p.cs > p.ct && p.cs == |Queued(p.src)| + |Out(p.src)| && |Out(p.src)| <= 1
    ensures p.cs >= 2 ==> |Queued(p.src)| >= Needed(p.cs, p.ct)
    ensures |Queued(p.src)| < Needed(p.cs, p.ct) <==> p.cs == 1 && |Out(p.src)| == 1
  {
  }
}
