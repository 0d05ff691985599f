/** How far apart the keys on the timeline can get, on one core with a fixed set of
    tasks. */
module FairWindow {
  import opened Scheduling
  import opened FairTimeline
  import opened FairRuns

  // Tasks queued before the dispatch loop starts, with pids 1, 2, ... in order
  // (lib/yarn.c:494-497).
  ghost function Launch(prios: seq<Priority>, ts: nat): (s: Fleet)
    ensures forall p :: p in s.seen ==> 1 <= p <= |prios|
    ensures s.out == map[]
  {
    if prios == [] then INIT
    else
      var n := |prios| - 1;
      Step(Launch(prios[..n], ts), Arrive(n + 1, prios[n]), ts)
  }

  ghost predicate Spread(tree: map<nat, Task>, width: nat) {
    forall j, k :: j in tree && k in tree ==> j <= k + width
  }

  // n tasks. `slow` is the one very low priority among them, 0 when there is none, and
  // `floor` the least weight of the others. While the slow one waits no key is more than
  // `near` above its own; no two keys are ever more than `width` apart.
  datatype Profile = Profile(n: nat, slow: nat, floor: nat, near: nat, width: nat)

  predicate Slow(p: Profile, t: Task) { p.slow != 0 && t.pid == p.slow }

  predicate Paced(p: Profile, t: Task) {
    t.weight >= if Slow(p, t) then 2 else p.floor
  }

  // How far beyond the next key a returning task can be filed, collisions and offset
  // apart.
  function Over(p: Profile, t: Task): nat {
    if Slow(p, t) then 4 * p.near + 99
    else if p.floor >= 10 then 148
    else 2 * p.width / 3 + 99
  }

  predicate Fits(p: Profile, offset: nat) {
    && (if p.slow != 0 then
          && p.floor >= 10 && 148 + p.n + offset <= p.near
          && 4 * p.near + 99 + p.n + offset <= p.width
        else if p.floor >= 10 then
          148 + p.n + offset <= p.width
        else
          p.floor >= 6 && 300 + 3 * p.n + 3 * offset <= p.width)
  }

  lemma OverFits(p: Profile, offset: nat, t: Task)
    requires Fits(p, offset)
    ensures Over(p, t) + p.n + offset <= p.width
    ensures p.slow != 0 && !Slow(p, t) ==> Over(p, t) + p.n + offset <= p.near
  {
  }

  // All keys within reach of each other: of a slow task's key, nearer.
  ghost predicate Close(tree: map<nat, Task>, p: Profile) {
    && (forall k :: k in tree ==> Paced(p, tree[k]))
    && (forall j, k :: j in tree && k in tree ==> j <= k + Reach(p, tree[k]))
  }

  function Reach(p: Profile, t: Task): nat { if Slow(p, t) then p.near else p.width }

  lemma CloseSpread(tree: map<nat, Task>, p: Profile)
    requires Close(tree, p) && p.near <= p.width
    ensures Spread(tree, p.width)
  {
  }

  // What holds between two steps of one core.
  ghost predicate Narrow(s: Fleet, p: Profile) {
    && |s.tl.tree| + |s.out| <= p.n
    && |s.out| <= 1
    && Close(s.tl.tree, p)
    && (forall o :: o in s.out ==> Running(s.tl.tree, s.out[o], p))
    && Fits(p, s.tl.offset)
  }

  ghost predicate Running(tree: map<nat, Task>, o: Task, p: Profile) {
    && Paced(p, o)
    && (forall k :: k in tree ==> o.timebase < k <= o.timebase + Reach(p, o))
    && (tree != map[] ==> o.runtime == Max(LeastKey(tree) - o.timebase, MIN_GRANULARITY))
  }

  // The charge for part of a slice of r, beyond the time r itself.
  lemma ChargeAtMost(used: nat, r: nat, weight: nat)
    requires used <= r && weight >= 2
    ensures Charge(used, weight) <= 5 * r
    ensures weight >= 6 ==> Charge(used, weight) <= r + 2 * r / 3
    ensures weight >= 10 ==> Charge(used, weight) <= r
  {
    ChargeExact(used, weight, Charge(used, weight));
    var v := Charge(used, weight);
    Scaled(2, weight, v);
    if weight >= 6 { Scaled(6, weight, v); }
    if weight >= 10 { Scaled(10, weight, v); }
  }

  // Where a task goes back to before the granularity and the offset are added.
  lemma ReturnBase(s: Fleet, p: Profile, pid: nat, remaining: nat, ts: nat) returns (base: nat)
    requires Enabled(s, Return(pid, remaining)) && Running(s.tl.tree, s.out[pid], p) && Fits(p, s.tl.offset)
    requires s.tl.tree != map[]
    ensures s.out[pid].timebase <= base && base + 99 <= LeastKey(s.tl.tree) + Over(p, s.out[pid])
    ensures Step(s, Return(pid, remaining), ts).tl == Insert(s.tl, s.out[pid], base).(offset := 0)
  {
    var o := s.out[pid];
    base := ReturnIsInsert(s, pid, remaining, ts);
    ChargeAtMost(o.runtime - remaining, o.runtime, o.weight);
    assert LeastKey(s.tl.tree) in s.tl.tree;
  }

  /** A returning task is filed less than Over + 1 + n + offset above the least waiting
      key; the offset is zero from the first return on. */
  lemma ReturnNearNext(s: Fleet, p: Profile, pid: nat, remaining: nat, ts: nat) returns (k: nat)
    requires Narrow(s, p) && Enabled(s, Return(pid, remaining)) && s.tl.tree != map[]
    ensures k !in s.tl.tree
    ensures s.out[pid].timebase + 2 * MIN_GRANULARITY <= k
    ensures k <= LeastKey(s.tl.tree) + Over(p, s.out[pid]) + p.n + s.tl.offset
    ensures Step(s, Return(pid, remaining), ts).tl.tree == s.tl.tree[k := s.out[pid].(timebase := k)]
    ensures Step(s, Return(pid, remaining), ts).tl.offset == 0
  {
    assert Running(s.tl.tree, s.out[pid], p);
    var base := ReturnBase(s, p, pid, remaining, ts);
    k := InsertFacts(s.tl, s.out[pid], base);
    assert |s.tl.tree| + 1 <= p.n by { assert pid in s.out.Keys; }
  }

  // What is left when the least task is taken, and the slice it gets.
  lemma TakeLeast(tl: Timeline, ts: nat)
    requires tl.tree != map[]
    ensures var k := LeastKey(tl.tree);
            && k in tl.tree
            && Select(tl, ts).0 == tl.(tree := tl.tree - {k})
            && Select(tl, ts).1.Some?
            && (forall j :: j in tl.tree - {k} ==> k < j)
            && |tl.tree - {k}| == |tl.tree| - 1
            && var t := Select(tl, ts).1.value;
               && t == tl.tree[k].(runtime := t.runtime)
               && (tl.tree - {k} != map[] ==> t.runtime == Max(LeastKey(tl.tree - {k}) - k, MIN_GRANULARITY))
  {
  }

  lemma NarrowDispatch(s: Fleet, p: Profile, ts: nat)
    requires Narrow(s, p) && s.out == map[] && s.tl.tree != map[]
    requires forall k :: k in s.tl.tree ==> s.tl.tree[k].timebase == k
    ensures Narrow(Step(s, Dispatch, ts), p)
  {
    TakeLeast(s.tl, ts);
    var k := LeastKey(s.tl.tree);
    var t := Select(s.tl, ts).1.value;
    var s' := Step(s, Dispatch, ts);
    assert s'.out == map[t.pid := t];
    assert Running(s'.tl.tree, t, p);
  }

  lemma OneBigger(tree: map<nat, Task>, k: nat, t: Task)
    requires k !in tree
    ensures |tree[k := t]| == |tree| + 1
  {
    assert tree[k := t].Keys == tree.Keys + {k};
  }

  // A task filed within reach of every other key keeps the window.
  lemma FiledClose(tree: map<nat, Task>, p: Profile, k: nat, t: Task)
    requires Close(tree, p) && k !in tree && Paced(p, t)
    requires forall j :: j in tree ==> k <= j + Reach(p, tree[j]) && j <= k + Reach(p, t)
    ensures Close(tree[k := t], p) && |tree[k := t]| == |tree| + 1
  {
    OneBigger(tree, k, t);
  }

  // The two bounds on the new key put it within reach.
  lemma WithinReach(tree: map<nat, Task>, p: Profile, o: Task, k: nat, offset: nat)
    requires Running(tree, o, p) && tree != map[] && Fits(p, offset)
    requires forall j :: j in tree ==> tree[j].pid != o.pid
    requires o.timebase <= k <= LeastKey(tree) + Over(p, o) + p.n + offset
    ensures forall j :: j in tree ==> k <= j + Reach(p, tree[j]) && j <= k + Reach(p, o)
  {
    OverFits(p, offset, o);
  }

  lemma NarrowReturn(s: Fleet, p: Profile, pid: nat, remaining: nat, ts: nat)
    requires Narrow(s, p) && Enabled(s, Return(pid, remaining)) && s.out[pid].pid == pid
    requires forall k :: k in s.tl.tree ==> s.tl.tree[k].pid != pid
    ensures Narrow(Step(s, Return(pid, remaining), ts), p)
  {
    var s' := Step(s, Return(pid, remaining), ts);
    var o := s.out[pid];
    var k := ReturnWithin(s, p, pid, remaining, ts);
    FiledClose(s.tl.tree, p, k, o.(timebase := k));
    OnlyKey(s.out, pid);
    assert |s.out.Keys| >= 1 by { assert pid in s.out.Keys; }
  }

  lemma ReturnWithin(s: Fleet, p: Profile, pid: nat, remaining: nat, ts: nat) returns (k: nat)
    requires Narrow(s, p) && Enabled(s, Return(pid, remaining)) && s.out[pid].pid == pid
    requires forall k :: k in s.tl.tree ==> s.tl.tree[k].pid != pid
    ensures k !in s.tl.tree && Paced(p, s.out[pid])
    ensures forall j :: j in s.tl.tree ==> k <= j + Reach(p, s.tl.tree[j]) && j <= k + Reach(p, s.out[pid])
    ensures Step(s, Return(pid, remaining), ts).tl.tree == s.tl.tree[k := s.out[pid].(timebase := k)]
    ensures Step(s, Return(pid, remaining), ts).tl.offset == 0
  {
    assert Running(s.tl.tree, s.out[pid], p);
    if s.tl.tree == map[] {
      k := ReturnKey(s, pid, remaining, ts);
    } else {
      k := ReturnNearNext(s, p, pid, remaining, ts);
      WithinReach(s.tl.tree, p, s.out[pid], k, s.tl.offset);
    }
  }

  lemma OnlyKey(m: map<nat, Task>, p: nat)
    requires p in m && |m| <= 1
    ensures m - {p} == map[]
  {
    assert |m.Keys - {p}| == |m.Keys| - 1;
    assert (m - {p}).Keys == m.Keys - {p};
    assert m.Keys - {p} == {};
  }

  lemma NarrowStep(s: Fleet, p: Profile, e: Event, ts: nat)
    requires Wf(s) && Narrow(s, p) && Enabled(s, e) && !e.Arrive?
    requires e.Dispatch? ==> s.out == map[]
    ensures Narrow(Step(s, e, ts), p)
  {
    match e
    case Dispatch => if s.tl.tree != map[] { NarrowDispatch(s, p, ts); }
    case Return(pid, remaining) => NarrowReturn(s, p, pid, remaining, ts);
    case Finish(pid) => OnlyKey(s.out, pid); assert |s.out - {pid}| == 0;
  }

  lemma NarrowNext(s: Fleet, p: Profile, es: seq<Event>, ts: nat) returns (s': Fleet)
    requires Wf(s) && Narrow(s, p) && Legal(s, es, ts) && OneAtATime(s, es, ts) && NoArrivals(es) && es != []
    ensures Wf(s') && Narrow(s', p) && Legal(s', es[1..], ts) && OneAtATime(s', es[1..], ts)
    ensures NoArrivals(es[1..]) && Run(s, es, ts) == Run(s', es[1..], ts)
  {
    StepWf(s, es[0], ts);
    NarrowStep(s, p, es[0], ts);
    s' := Step(s, es[0], ts);
  }

  lemma {:induction false} NarrowRun(s: Fleet, p: Profile, es: seq<Event>, ts: nat)
    requires Wf(s) && Narrow(s, p) && Legal(s, es, ts) && OneAtATime(s, es, ts) && NoArrivals(es)
    ensures Narrow(Run(s, es, ts), p)
    decreases |es|
  {
    if es != [] {
      var s' := NarrowNext(s, p, es, ts);
      NarrowRun(s', p, es[1..], ts);
    }
  }

  // The tasks of prios are all there, filed between 100 and 150 + 50 n.
  ghost predicate Launched(s: Fleet, prios: seq<Priority>) {
    var n := |prios|;
    && |s.tl.tree| == n
    && s.tl.offset == MIN_GRANULARITY * n
    && (n > 0 ==> 100 in s.tl.tree)
    && (forall k :: k in s.tl.tree ==> 100 <= k <= 150 + 50 * n && IsLaunched(s.tl.tree[k], prios))
    && (forall i :: 1 <= i <= n ==> HasPid(s.tl.tree, i))
  }

  ghost predicate HasPid(tree: map<nat, Task>, pid: nat) {
    exists k :: k in tree && tree[k].pid == pid
  }

  ghost predicate IsLaunched(t: Task, prios: seq<Priority>) {
    1 <= t.pid <= |prios| && t.weight == WeightTenths(prios[t.pid - 1])
  }

  lemma LaunchFiled(s: Fleet, n: nat, prio: Priority, ts: nat) returns (k: nat, t: Task)
    requires |s.tl.tree| == n && s.tl.offset == MIN_GRANULARITY * n && Enabled(s, Arrive(n + 1, prio))
    requires n > 0 ==> 100 in s.tl.tree
    requires forall j :: j in s.tl.tree ==> 100 <= j <= 150 + 50 * n
    ensures k == if n == 0 then 100 else 200 + 50 * n
    ensures k !in s.tl.tree && t == Task(n + 1, 0, k, WeightTenths(prio))
    ensures Step(s, Arrive(n + 1, prio), ts).tl.tree == s.tl.tree[k := t]
    ensures Step(s, Arrive(n + 1, prio), ts).tl.offset == MIN_GRANULARITY * (n + 1)
  {
    t := Task(n + 1, 0, 0, WeightTenths(prio));
    var least := if n == 0 then 0 else 100;
    assert n > 0 ==> LeastKey(s.tl.tree) == 100;
    ScheduleIsInsert(s.tl, n + 1, prio);
    k := InsertFacts(s.tl, t, least);
    t := t.(timebase := k);
  }

  lemma LaunchNext(s: Fleet, s': Fleet, prios: seq<Priority>, k: nat, t: Task)
    requires prios != [] && Launched(s, prios[..|prios| - 1])
    requires k == (if |prios| == 1 then 100 else 150 + 50 * |prios|) && k !in s.tl.tree
    requires t == Task(|prios|, 0, k, WeightTenths(prios[|prios| - 1]))
    requires s'.tl.tree == s.tl.tree[k := t] && s'.tl.offset == MIN_GRANULARITY * |prios|
    ensures Launched(s', prios)
  {
    var n := |prios| - 1;
    assert s'.tl.tree.Keys == s.tl.tree.Keys + {k};
    forall j | j in s'.tl.tree ensures IsLaunched(s'.tl.tree[j], prios) {
      assert j != k ==> IsLaunched(s.tl.tree[j], prios[..n]);
    }
    forall i | 1 <= i <= |prios| ensures HasPid(s'.tl.tree, i) {
      if i == |prios| {
        assert s'.tl.tree[k].pid == i;
      } else {
        assert HasPid(s.tl.tree, i);
        var j :| j in s.tl.tree && s.tl.tree[j].pid == i;
        assert j in s'.tl.tree && s'.tl.tree[j].pid == i;
      }
    }
  }

  /** Tasks started together are filed between 100 and 150 + 50 n, each with the weight of
      its priority. */
  lemma {:induction false} LaunchKeys(prios: seq<Priority>, ts: nat)
    ensures Wf(Launch(prios, ts)) && Launched(Launch(prios, ts), prios)
  {
    if prios != [] {
      var n := |prios| - 1;
      var s := Launch(prios[..n], ts);
      LaunchKeys(prios[..n], ts);
      StepWf(s, Arrive(n + 1, prios[n]), ts);
      var k, t := LaunchFiled(s, n, prios[n], ts);
      LaunchNext(s, Launch(prios, ts), prios, k, t);
    }
  }

  // A very low priority only beside tasks of weight one or more.
  predicate Steady(prios: seq<Priority>) {
    forall i, j :: 0 <= i < |prios| && 0 <= j < |prios| && i != j && prios[i].VeryLow? ==> WeightTenths(prios[j]) >= 10
  }

  // The pid of a task of very low priority, 0 when there is none.
  function SlowPid(prios: seq<Priority>): (pid: nat)
    ensures pid <= |prios| && (pid > 0 ==> prios[pid - 1].VeryLow?)
    ensures pid == 0 ==> forall i :: 0 <= i < |prios| ==> !prios[i].VeryLow?
  {
    if prios == [] then 0
    else if prios[|prios| - 1].VeryLow? then |prios|
    else SlowPid(prios[..|prios| - 1])
  }

  function ProfileOf(prios: seq<Priority>): Profile {
    var n := |prios|;
    if SlowPid(prios) > 0 then Profile(n, SlowPid(prios), 10, 148 + 51 * n, 691 + 255 * n)
    else if forall i :: 0 <= i < n ==> WeightTenths(prios[i]) >= 10 then Profile(n, 0, 10, 0, 148 + 51 * n)
    else Profile(n, 0, 6, 0, 300 + 153 * n)
  }

  function Window(prios: seq<Priority>): nat { ProfileOf(prios).width }

  lemma LaunchPaced(prios: seq<Priority>, t: Task)
    requires Steady(prios) && IsLaunched(t, prios)
    ensures Paced(ProfileOf(prios), t)
  {
  }

  lemma LaunchNarrow(prios: seq<Priority>, s: Fleet)
    requires Steady(prios) && Launched(s, prios) && s.out == map[]
    ensures Narrow(s, ProfileOf(prios))
  {
    forall k | k in s.tl.tree ensures Paced(ProfileOf(prios), s.tl.tree[k]) {
      LaunchPaced(prios, s.tl.tree[k]);
    }
  }

  /** Bounded key window: start any tasks of which none is of very low priority unless all
      others weigh one or more, and let one core run them for any length of time, each
      using as much of its slice as it likes: at every moment the waiting keys lie within
      148 + 51 n of each other when all weigh one or more, 300 + 153 n when none is of
      very low priority, and 691 + 255 n otherwise. */
  lemma KeyWindow(prios: seq<Priority>, es: seq<Event>, ts: nat)
    requires Steady(prios)
    requires Legal(Launch(prios, ts), es, ts) && OneAtATime(Launch(prios, ts), es, ts) && NoArrivals(es)
    ensures Spread(Run(Launch(prios, ts), es, ts).tl.tree, Window(prios))
  {
    LaunchKeys(prios, ts);
    LaunchNarrow(prios, Launch(prios, ts));
    NarrowRun(Launch(prios, ts), ProfileOf(prios), es, ts);
    CloseSpread(Run(Launch(prios, ts), es, ts).tl.tree, ProfileOf(prios));
  }

  predicate Has(prios: seq<Priority>, prio: Priority) {
    exists i :: 0 <= i < |prios| && prios[i] == prio
  }

  lemma LowWindow(prios: seq<Priority>)
    requires !Has(prios, VeryLow) && Has(prios, Low)
    ensures Window(prios) == 300 + 153 * |prios|
  {
    var i :| 0 <= i < |prios| && prios[i] == Low;
    assert WeightTenths(prios[i]) < 10;
  }

  lemma HeavyWindow(prios: seq<Priority>)
    requires !Has(prios, VeryLow) && !Has(prios, Low)
    ensures Window(prios) == 148 + 51 * |prios|
  {
    forall i | 0 <= i < |prios| ensures WeightTenths(prios[i]) >= 10 {
      assert prios[i] != Low && prios[i] != VeryLow;
    }
  }

  /** The window is that of the least urgent priority among those started. */
  lemma WindowIs(prios: seq<Priority>)
    ensures Has(prios, VeryLow) ==> Window(prios) == 691 + 255 * |prios|
    ensures !Has(prios, VeryLow) && Has(prios, Low) ==> Window(prios) == 300 + 153 * |prios|
    ensures !Has(prios, VeryLow) && !Has(prios, Low) ==> Window(prios) == 148 + 51 * |prios|
  {
    if Has(prios, VeryLow) {
    } else if Has(prios, Low) {
      LowWindow(prios);
    } else {
      HeavyWindow(prios);
    }
  }
}
