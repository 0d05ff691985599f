/** Runs of the master scheduler after which its accounting never comes back: it takes one
    lock twice, or goes round moving nothing; and what titanic yarns do to each other. */
module AccountingStalls {
  import opened Scheduling
  import opened Schedulers
  import opened Balancer
  import opened MasterSystem

  /** A core running its only job has nothing to give, however often it is asked. */
  lemma LoneJobNeverMoves(ts: nat)
    ensures var p := Pair(RoundRobin([], multiset{1}, {1}, ts), RoundRobin([], multiset{}, {}, ts), 1, 0);
            && PairWf(p)
            && forall run :: IsRun(run, p) ==> Last(run).cs > Last(run).ct
  {
    var p := Pair(RoundRobin([], multiset{1}, {1}, ts), RoundRobin([], multiset{}, {}, ts), 1, 0);
    assert multiset([]) + multiset{1} == multiset{1};
    RebalanceEndsIff(p);
  }

  // No core is donated.
  function Undonated(sys: System, lastMin: nat, cd: nat): Load { Load(sys, Zeros(|sys.counts|), lastMin, cd) }

  lemma ShownUndonated(counts: seq<nat>)
    ensures Shown(counts, Zeros(|counts|)) == counts
  {
  }

  // What the cores do: a yarn of normal priority arrives, or a titanic one takes a core.
  datatype Action = Arrives(pid: nat) | TakesCore(pid: nat) | Picks(c: nat) | Ends(c: nat, pid: nat)

  ghost predicate Acts(l: Load, secondary: Core, a: Action, l': Load) {
    && |l.sys.cores| == |l.sys.counts|
    && match a
       case Arrives(pid) =>
         && l'.lastMin < |l.sys.cores| && l'.cd == NextCd(l.cd) && l'.alone == l.alone && |l.alone| == |l.sys.counts|
         && (if l.cd > 0 then l'.lastMin == l.lastMin else IsFirstLeast(Shown(l.sys.counts, l.alone), l'.lastMin))
         && ScheduledAt(l.sys, l'.lastMin, secondary, pid, Normal, l'.sys)
       case TakesCore(pid) =>
         && l' == l.(alone := l'.alone) && |l.alone| == |l.sys.cores|
         && exists c: nat :: IsFirstUnused(l.sys.cores, c) && l'.alone == l.alone[c := pid]
       case Picks(c) =>
         && c < |l.sys.cores| && l' == l.(sys := l'.sys)
         && exists job :: SelectedAt(l.sys, c, secondary, job, l'.sys)
       case Ends(c, pid) =>
         && c < |l.sys.cores| && l' == l.(sys := l'.sys)
         && l.sys.cores[c].Some? && pid in Out(l.sys.cores[c].value) && UnscheduledAt(l.sys, c, pid, l'.sys)
  }

  ghost predicate Leads(ls: seq<Load>, secondary: Core, acts: seq<Action>) {
    && |ls| == |acts| + 1
    && forall i :: 0 <= i < |acts| ==> Acts(ls[i], secondary, acts[i], ls[i + 1])
  }

  // Some run leads from `start` to l.
  ghost predicate Path(start: Load, secondary: Core, l: Load) {
    exists ls, acts :: Leads(ls, secondary, acts) && ls[0] == start && ls[|acts|] == l
  }

  // The same, folded: it opens where Path is named.
  ghost predicate Reached(start: Load, secondary: Core, l: Load) {
    forall m {:trigger Path(start, secondary, m)} :: m == l ==> Path(start, secondary, m)
  }

  lemma ReachedNow(start: Load, secondary: Core)
    ensures Reached(start, secondary, start)
  {
    var ls, acts: seq<Action> := [start], [];
    assert Leads(ls, secondary, acts) && ls[0] == start && ls[|acts|] == start;
    assert Path(start, secondary, start);
  }

  lemma ReachedThen(start: Load, secondary: Core, l: Load, a: Action, l': Load)
    requires Reached(start, secondary, l) && Acts(l, secondary, a, l')
    ensures Reached(start, secondary, l')
  {
    assert Path(start, secondary, l);
    var ls, acts :| Leads(ls, secondary, acts) && ls[0] == start && ls[|acts|] == l;
    var ls', acts' := ls + [l'], acts + [a];
    forall i | 0 <= i < |acts'| ensures Acts(ls'[i], secondary, acts'[i], ls'[i + 1]) {
      if i < |acts| {
        assert Acts(ls[i], secondary, acts[i], ls[i + 1]);
      }
    }
    assert Leads(ls', secondary, acts') && ls'[0] == start && ls'[|acts'|] == l';
    assert Path(start, secondary, l');
  }

  /** Before anything is scheduled, and after one yarn has been, all of several cores ask
      core 0 to give to itself. */
  lemma OneYarnLocksTwice(prim: Core, secondary: Core, n: nat) returns (l: Load)
    requires n >= 2 && Fresh(prim) && Fresh(secondary)
    ensures var start := Undonated(Start(prim, n), 0, 0);
            && !ShiftEnds(start) && Acts(start, secondary, Arrives(1), l) && !ShiftEnds(l)
    ensures SystemWf(l.sys) && Live(Rosters(l.sys)) == multiset{1}
  {
    l := FirstStep(prim, secondary, n);
    AsksItself(Undonated(Start(prim, n), 0, 0));
    AsksItself(l);
  }

  lemma FirstStep(prim: Core, secondary: Core, n: nat) returns (l: Load)
    requires n >= 2 && Fresh(prim)
    ensures Acts(Undonated(Start(prim, n), 0, 0), secondary, Arrives(1), l)
    ensures SystemWf(l.sys) && Live(Rosters(l.sys)) == multiset{1}
    ensures |l.sys.counts| == |l.sys.cores| == n && l.lastMin == 0 && l.cd == 2 && l.alone == Zeros(n)
    ensures forall c :: 0 < c < n ==> l.sys.counts[c] == 0
  {
    assert RosterOf(Some(prim)).seen == {};
    var core' := Schedule(prim, 1, Normal);
    FirstArrives(prim, n, core');
    FirstActs(prim, secondary, n, core');
    l := Undonated(At(Start(prim, n), 0, core', 1), 0, 2);
  }

  // Core 0 asked to give to itself.
  lemma AsksItself(l: Load)
    requires |l.sys.counts| == |l.sys.cores| >= 2 && l.lastMin == 0 && l.alone == Zeros(|l.sys.counts|)
    requires forall c :: 0 < c < |l.sys.counts| ==> l.sys.counts[c] == 0
    requires l.cd > 0 || l.sys.counts[0] == 0
    ensures !ShiftEnds(l)
  {
    ShownUndonated(l.sys.counts);
    assert Answers(l, 0, 0) && !Balanceable(l.sys, 0, 0);
  }

  lemma FirstActs(prim: Core, secondary: Core, n: nat, core': Core)
    requires n >= 2 && CoreWf(prim) && Seen(prim) == {} && core' == Schedule(prim, 1, Normal)
    ensures var start, l := Undonated(Start(prim, n), 0, 0), Undonated(At(Start(prim, n), 0, core', 1), 0, 2);
            Acts(start, secondary, Arrives(1), l)
  {
    var start := Undonated(Start(prim, n), 0, 0);
    assert CoreFor(start.sys, 0, secondary) == prim && start.sys.counts[0] == 0;
    ShownUndonated(start.sys.counts);
    assert IsFirstLeast(start.sys.counts, 0);
  }

  lemma FirstArrives(prim: Core, n: nat, core': Core)
    requires n >= 2 && Fresh(prim) && Seen(prim) == {} && core' == Schedule(prim, 1, Normal)
    ensures SystemWf(At(Start(prim, n), 0, core', 1)) && Live(Rosters(At(Start(prim, n), 0, core', 1))) == multiset{1}
  {
    var s := Start(prim, n);
    StartWf(prim, n);
    ScheduleContract(prim, 1, Normal);
    assert Absent(s, 1);
    assert Rosters(s)[0] == NOBODY;
    ScheduledOn(s, 0, core', 1);
  }

  // ---- two round-robin cores ----

  function Joining(c: Core, pid: nat): Core
    requires c.RoundRobin?
  {
    c.(queue := c.queue + [pid], seen := c.seen + {pid})
  }

  function Picking(c: Core): Core
    requires c.RoundRobin? && c.queue != []
  {
    c.(queue := c.queue[1..], out := c.out + multiset{c.queue[0]})
  }

  function Ending(c: Core, pid: nat): Core
    requires c.RoundRobin?
  {
    c.(out := c.out - multiset{pid})
  }

  // Core c's new state and count, the least load answered by lastMin with cd answers to come.
  function Now(l: Load, c: nat, core: Core, count: nat, lastMin: nat, cd: nat): Load
    requires c < |l.sys.cores| == |l.sys.counts|
  {
    Load(At(l.sys, c, core, count), l.alone, lastMin, cd)
  }

  lemma Joins(l: Load, secondary: Core, c: nat, pid: nat)
    requires c < |l.sys.cores| == |l.sys.counts| && l.alone == Zeros(|l.sys.counts|)
    requires var core := CoreFor(l.sys, c, secondary); core.RoundRobin? && CoreWf(core) && pid > 0 && pid !in core.seen
    requires if l.cd > 0 then c == l.lastMin else IsFirstLeast(l.sys.counts, c)
    ensures var core' := Joining(CoreFor(l.sys, c, secondary), pid);
            CoreWf(core') && Acts(l, secondary, Arrives(pid), Now(l, c, core', l.sys.counts[c] + 1, c, NextCd(l.cd)))
  {
    ScheduleContract(CoreFor(l.sys, c, secondary), pid, Normal);
    ShownUndonated(l.sys.counts);
  }

  lemma Runs(l: Load, secondary: Core, c: nat)
    requires c < |l.sys.cores| == |l.sys.counts| && l.sys.cores[c].Some?
    requires var core := l.sys.cores[c].value; core.RoundRobin? && CoreWf(core) && core.queue != []
    ensures var core' := Picking(l.sys.cores[c].value);
            CoreWf(core') && Acts(l, secondary, Picks(c), Now(l, c, core', l.sys.counts[c], l.lastMin, l.cd))
  {
    var core := l.sys.cores[c].value;
    SelectContract(core);
    assert SelectedAt(l.sys, c, secondary, Select(core).1, At(l.sys, c, Picking(core), l.sys.counts[c]));
  }

  lemma Finishes(l: Load, secondary: Core, c: nat, pid: nat)
    requires c < |l.sys.cores| == |l.sys.counts| && l.sys.cores[c].Some? && l.sys.counts[c] > 0
    requires var core := l.sys.cores[c].value; core.RoundRobin? && CoreWf(core) && pid in core.out
    ensures var core' := Ending(l.sys.cores[c].value, pid);
            CoreWf(core') && Acts(l, secondary, Ends(c, pid), Now(l, c, core', l.sys.counts[c] - 1, l.lastMin, l.cd))
  {
    UnscheduleContract(l.sys.cores[c].value, pid);
  }

  function Two(a: Core, b: Option<Core>, m: nat, n: nat, lastMin: nat, cd: nat): Load {
    Undonated(System([Some(a), b], [m, n]), lastMin, cd)
  }

  // A round-robin core in order, folded: it opens where CoreWf is named.
  ghost predicate Robin(c: Core) {
    c.RoundRobin? && forall d {:trigger CoreWf(d)} :: d == c ==> CoreWf(d)
  }

  lemma ZeroJoins(start: Load, l: Load, a: Core, b: Option<Core>, secondary: Core, pid: nat)
    returns (l': Load, a': Core)
    requires Reached(start, secondary, l) && l.sys.cores == [Some(a), b] && |l.sys.counts| == 2 && l.alone == Zeros(2)
    requires Robin(a) && pid > 0 && pid !in a.seen
    requires if l.cd > 0 then l.lastMin == 0 else l.sys.counts[0] <= l.sys.counts[1]
    ensures Reached(start, secondary, l') && a' == Joining(a, pid) && Robin(a')
    ensures l' == Two(a', b, l.sys.counts[0] + 1, l.sys.counts[1], 0, NextCd(l.cd))
  {
    assert CoreWf(a);
    Joins(l, secondary, 0, pid);
    a' := Joining(a, pid);
    l' := Two(a', b, l.sys.counts[0] + 1, l.sys.counts[1], 0, NextCd(l.cd));
    assert l' == Now(l, 0, a', l.sys.counts[0] + 1, 0, NextCd(l.cd));
    ReachedThen(start, secondary, l, Arrives(pid), l');
  }

  lemma OneJoins(start: Load, l: Load, a: Core, secondary: Core, pid: nat) returns (l': Load, b': Core)
    requires Reached(start, secondary, l) && l.sys.cores == [Some(a), None]
    requires |l.sys.counts| == 2 && l.alone == Zeros(2)
    requires Robin(secondary) && pid > 0 && pid !in secondary.seen
    requires l.cd == 0 && l.sys.counts[0] > l.sys.counts[1]
    ensures Reached(start, secondary, l') && b' == Joining(secondary, pid) && Robin(b')
    ensures l' == Two(a, Some(b'), l.sys.counts[0], l.sys.counts[1] + 1, 1, 2)
  {
    assert CoreWf(secondary);
    Joins(l, secondary, 1, pid);
    b' := Joining(secondary, pid);
    l' := Two(a, Some(b'), l.sys.counts[0], l.sys.counts[1] + 1, 1, 2);
    assert l' == Now(l, 1, b', l.sys.counts[1] + 1, 1, 2);
    ReachedThen(start, secondary, l, Arrives(pid), l');
  }

  // A core runs the job in front, and the job ends.
  lemma Serves(start: Load, l: Load, secondary: Core, c: nat) returns (l': Load, core: Core)
    requires Reached(start, secondary, l)
    requires c < |l.sys.cores| == |l.sys.counts| && l.sys.cores[c].Some? && l.sys.counts[c] > 0
    requires var core := l.sys.cores[c].value;
             Robin(core) && core.queue != [] && core.out == multiset{}
    ensures Reached(start, secondary, l') && Robin(core)
    ensures core == l.sys.cores[c].value.(queue := l.sys.cores[c].value.queue[1..])
    ensures l' == Now(l, c, core, l.sys.counts[c] - 1, l.lastMin, l.cd)
  {
    var was := l.sys.cores[c].value;
    assert CoreWf(was);
    Runs(l, secondary, c);
    var l1 := Now(l, c, Picking(was), l.sys.counts[c], l.lastMin, l.cd);
    ReachedThen(start, secondary, l, Picks(c), l1);
    Finishes(l1, secondary, c, was.queue[0]);
    core := Ending(Picking(was), was.queue[0]);
    assert core.out == multiset{};
    l' := Now(l, c, core, l.sys.counts[c] - 1, l.lastMin, l.cd);
    assert l' == Now(l1, c, core, l1.sys.counts[c] - 1, l.lastMin, l.cd);
    ReachedThen(start, secondary, l1, Ends(c, was.queue[0]), l');
  }

  lemma NewRobin(c: Core)
    requires c.RoundRobin? && c.queue == [] && c.out == multiset{} && c.seen == {}
    ensures Robin(c)
  {
    assert multiset(c.queue) + c.out == multiset{} && CoreWf(c);
  }

  // Three yarns go to core 0 while its answer is remembered, the fourth to core 1.
  lemma FourArrive(prim: Core, ts: nat) returns (l: Load, a: Core, b: Core)
    requires prim == RoundRobin([], multiset{}, {}, ts)
    ensures Reached(Undonated(Start(prim, 2), 0, 0), prim, l)
    ensures l == Two(a, Some(b), 3, 1, 1, 2) && Robin(a) && Robin(b)
    ensures a == RoundRobin([1, 2, 3], multiset{}, {1, 2, 3}, ts) && b == RoundRobin([4], multiset{}, {4}, ts)
  {
    var start := Undonated(Start(prim, 2), 0, 0);
    ReachedNow(start, prim);
    NewRobin(prim);
    assert start == Two(prim, None, 0, 0, 0, 0);
    l, a := ZeroJoins(start, start, prim, None, prim, 1);
    l, a := ZeroJoins(start, l, a, None, prim, 2);
    l, a := ZeroJoins(start, l, a, None, prim, 3);
    l, b := OneJoins(start, l, a, prim, 4);
  }

  // Core 0 serves two of its yarns and core 1 its own.
  lemma ThreeEnd(start: Load, l: Load, prim: Core, ts: nat) returns (l': Load, a: Core, b: Core)
    requires Reached(start, prim, l)
    requires l.sys.cores == [Some(RoundRobin([1, 2, 3], multiset{}, {1, 2, 3}, ts)),
                             Some(RoundRobin([4], multiset{}, {4}, ts))]
    requires l.sys.counts == [3, 1] && l.alone == Zeros(2) && Robin(l.sys.cores[0].value) && Robin(l.sys.cores[1].value)
    ensures Reached(start, prim, l') && l' == Two(a, Some(b), 1, 0, l.lastMin, l.cd) && Robin(a) && Robin(b)
    ensures a == RoundRobin([3], multiset{}, {1, 2, 3}, ts) && b == RoundRobin([], multiset{}, {4}, ts)
  {
    l', a := Serves(start, l, prim, 0);
    l', a := Serves(start, l', prim, 0);
    l', b := Serves(start, l', prim, 1);
    assert l' == Two(a, Some(b), 1, 0, l.lastMin, l.cd);
  }

  // Core 0 takes its last job: nobody else can give it anything to do.
  lemma LastPick(start: Load, l: Load, prim: Core, a: Core, b: Core, ts: nat) returns (l': Load)
    requires Reached(start, prim, l) && l == Two(a, Some(b), 1, 0, 1, 2) && Robin(a)
    requires a == RoundRobin([3], multiset{}, {1, 2, 3}, ts)
    ensures Reached(start, prim, l')
    ensures l' == Two(RoundRobin([], multiset{3}, {1, 2, 3}, ts), Some(b), 1, 0, 1, 2)
  {
    assert CoreWf(a);
    Runs(l, prim, 0);
    l' := Two(Picking(a), Some(b), 1, 0, 1, 2);
    assert [3][1..] == [] && multiset{} + multiset{3} == multiset{3};
    assert l' == Now(l, 0, Picking(a), 1, 1, 2);
    ReachedThen(start, prim, l, Picks(0), l');
  }

  lemma Spins(l: Load, a: Core, b: Core)
    requires l == Two(a, Some(b), 1, 0, 1, 2) && Queued(a) == multiset{}
    ensures !ShiftEnds(l)
  {
    ShownUndonated(l.sys.counts);
    assert Answers(l, 0, 1) && !Balanceable(l.sys, 0, 1);
  }

  /** A real run that ends in the other failure: two round-robin cores, four yarns, three of
      which have come and gone. Core 0 is running its only job, core 1, the least loaded one
      as remembered, has none, and the accounting goes round for ever. */
  lemma LastJobSpins(ts: nat) returns (l: Load)
    ensures var prim := RoundRobin([], multiset{}, {}, ts); Reached(Undonated(Start(prim, 2), 0, 0), prim, l)
    ensures l == Two(RoundRobin([], multiset{3}, {1, 2, 3}, ts), Some(RoundRobin([], multiset{}, {4}, ts)), 1, 0, 1, 2)
    ensures !ShiftEnds(l)
  {
    var prim := RoundRobin([], multiset{}, {}, ts);
    var start := Undonated(Start(prim, 2), 0, 0);
    var a, b;
    l, a, b := FourArrive(prim, ts);
    l, a, b := ThreeEnd(start, l, prim, ts);
    l := LastPick(start, l, prim, a, b, ts);
    Spins(l, RoundRobin([], multiset{3}, {1, 2, 3}, ts), b);
  }

  // ---- titanic yarns ----

  lemma TitanicActs(l: Load, secondary: Core, c: nat, pid: nat)
    requires |l.sys.cores| == |l.sys.counts| == |l.alone| && IsFirstUnused(l.sys.cores, c)
    ensures Acts(l, secondary, TakesCore(pid), l.(alone := l.alone[c := pid]))
  {
    assert IsFirstUnused(l.sys.cores, c);
  }

  lemma OneAlone(n: nat, pid: nat)
    requires n >= 2 && pid > 0
    ensures Alone(Zeros(n)[1 := pid]) == multiset{pid}
  {
    NoneAlone(n);
    AloneUpdate(Zeros(n), 1, pid);
  }

  lemma {:induction false} NoneAlone(n: nat)
    ensures Alone(Zeros(n)) == multiset{}
  {
    if n > 0 {
      assert Zeros(n)[1..] == Zeros(n - 1);
      NoneAlone(n - 1);
    }
  }

  /** Two titanic yarns created before the scheduler's cores run: the second takes the core
      of the first, which is then nowhere. */
  lemma SecondTitanicEvicts(prim: Core, secondary: Core, n: nat) returns (l: Load)
    requires n >= 2 && Fresh(prim)
    ensures Reached(Undonated(Start(prim, n), 0, 0), secondary, l) && LoadOk(l)
    ensures Live(Rosters(l.sys)) == multiset{} && Alone(l.alone) == multiset{2}
  {
    var start := Undonated(Start(prim, n), 0, 0);
    StartLoad(prim, n);
    StartWf(prim, n);
    ReachedNow(start, secondary);
    TitanicActs(start, secondary, 1, 1);
    l := start.(alone := Zeros(n)[1 := 1]);
    ReachedThen(start, secondary, start, TakesCore(1), l);
    DonatedNext(start.sys, start.alone, 1, 1);
    TitanicActs(l, secondary, 1, 2);
    DonatedNext(l.sys, l.alone, 1, 2);
    var l' := l.(alone := Zeros(n)[1 := 2]);
    assert l.alone[1 := 2] == l'.alone;
    ReachedThen(start, secondary, l, TakesCore(2), l');
    OneAlone(n, 2);
    l := l';
  }

  /** On two cores one titanic yarn is enough for every shift to take core 0's lock twice,
      whatever else arrives, runs or ends, for as long as it has its core. */
  lemma TitanicLocksTwice(l: Load)
    requires LoadOk(l) && |l.sys.cores| == 2 && Alone(l.alone) != multiset{}
    ensures !ShiftEnds(l) && l.alone[0] == 0 && Alone(l.alone) == multiset{l.alone[1]}
  {
    var rest := l.alone[1..];
    assert rest[0] == l.alone[1] && rest[1..] == [] && l.alone[0] == 0;
    assert Alone(rest) == One(rest[0]) + Alone(rest[1..]);
    OneCoreLeft(l);
  }
}
