/** Where the key window fails: a task of very low priority beside another below weight
    one. Once they are alone the gap between their keys grows without end. */
module FairDivergence {
  import opened Scheduling
  import opened FairTimeline
  import opened FairRuns
  import opened FairWindow

  // A run of one core over the tasks of s, at whose end two keys are over w apart. It opens
  // where Legal(s, es, ts) is named.
  ghost predicate Exceeds(s: Fleet, es: seq<Event>, w: nat, ts: nat) {
    forall fs {:trigger Legal(s, fs, ts)} :: fs == es ==>
      && Legal(s, fs, ts) && OneAtATime(s, fs, ts) && NoArrivals(fs)
      && !Spread(Run(s, fs, ts).tl.tree, w)
  }

  // The two tasks at keys x and y: one of very low priority, one below weight one.
  ghost predicate Rivals(s: Fleet, x: nat, y: nat) {
    Kept(s) && s.out == map[] && TwoLight(s.tl.tree, x, y)
  }

  ghost predicate TwoLight(tree: map<nat, Task>, x: nat, y: nat) {
    x in tree && y in tree && x != y && tree[x].weight == 2 && tree[y].weight <= 6
  }

  lemma OneMore(s: Fleet, e: Event, es: seq<Event>, w: nat, ts: nat)
    requires Enabled(s, e) && !e.Arrive? && (e.Dispatch? ==> s.out == map[])
    requires Exceeds(Step(s, e, ts), es, w, ts)
    ensures Exceeds(s, [e] + es, w, ts)
  {
    assert Legal(Step(s, e, ts), es, ts);
    var all := [e] + es;
    assert all[0] == e && all[1..] == es;
    assert Legal(s, all, ts) && OneAtATime(s, all, ts) && NoArrivals(all);
    assert Run(s, all, ts) == Run(Step(s, e, ts), es, ts);
  }

  // One turn of the least task: it is taken, and `back` says how it comes back.
  lemma ExceedsAfterTurn(s: Fleet, back: Event, es: seq<Event>, w: nat, ts: nat)
    requires s.out == map[] && (back.Return? || back.Finish?)
    requires Enabled(Step(s, Dispatch, ts), back)
    requires Exceeds(Step(Step(s, Dispatch, ts), back, ts), es, w, ts)
    ensures Exceeds(s, [Dispatch, back] + es, w, ts)
  {
    var s1 := Step(s, Dispatch, ts);
    assert Legal(Step(s1, back, ts), es, ts);
    OneMore(s1, back, es, w, ts);
    OneMore(s, Dispatch, [back] + es, w, ts);
    assert [Dispatch] + ([back] + es) == [Dispatch, back] + es;
  }

  // The least task is out, the rest waits.
  lemma Taken(s: Fleet, ts: nat) returns (k: nat, s': Fleet, t: Task)
    requires Wf(s) && s.out == map[] && s.tl.tree != map[]
    ensures s' == Step(s, Dispatch, ts) && Wf(s')
    ensures IsLeast(s.tl.tree.Keys, k) && t == s.tl.tree[k].(runtime := t.runtime)
    ensures s'.tl.tree == s.tl.tree - {k} && s'.out == map[t.pid := t]
    ensures s'.tl.tree != map[] ==> t.runtime == Max(LeastKey(s'.tl.tree) - k, MIN_GRANULARITY)
    ensures forall j :: j in s'.tl.tree ==> k < j
  {
    StepWf(s, Dispatch, ts);
    TakeLeast(s.tl, ts);
    k := LeastKey(s.tl.tree);
    s' := Step(s, Dispatch, ts);
    t := Select(s.tl, ts).1.value;
  }

  // ---- two tasks alone ----

  lemma ChargeAtLeast(used: nat, weight: nat)
    requires 0 < weight <= 6
    ensures 3 * Charge(used, weight) >= 5 * used - 2
    ensures weight == 2 ==> Charge(used, weight) == 5 * used
  {
    var v := Charge(used, weight);
    ChargeExact(used, weight, v + 1);
    Scaled(weight, 6, v + 1);
  }

  // What one turn of the lower task does to the tree.
  ghost predicate Overtakes(tree: map<nat, Task>, tree': map<nat, Task>, lo: nat, hi: nat, k: nat) {
    && lo in tree && hi in tree && k != hi && tree'.Keys == {hi, k}
    && hi in tree' && tree'[hi] == tree[hi] && k in tree' && tree'[k].weight == tree[lo].weight
    && 3 * (k - hi) >= 2 * (hi - lo) + 298
    && (tree[lo].weight == 2 ==> k - hi >= 4 * (hi - lo) + 100)
  }

  lemma LowerOut(s: Fleet, lo: nat, hi: nat, ts: nat) returns (s1: Fleet, t: Task)
    requires Wf(s) && s.out == map[] && lo < hi && s.tl.tree.Keys == {lo, hi}
    ensures s1 == Step(s, Dispatch, ts) && Wf(s1) && s1.out == map[t.pid := t]
    ensures lo in s.tl.tree && hi in s.tl.tree && s1.tl.tree == map[hi := s.tl.tree[hi]]
    ensures t == s.tl.tree[lo].(runtime := Max(hi - lo, MIN_GRANULARITY)) && t.timebase == lo && t.weight > 0
  {
    var least;
    least, s1, t := Taken(s, ts);
    assert lo in s.tl.tree.Keys && hi in s.tl.tree.Keys && least == lo;
    assert s1.tl.tree == map[hi := s.tl.tree[hi]];
    OnlyOne(s1.tl.tree, hi);
  }

  lemma OnlyOne(tree: map<nat, Task>, k: nat)
    requires tree.Keys == {k}
    ensures tree != map[] && LeastKey(tree) == k
  {
    assert k in tree.Keys;
    assert LeastKey(tree) in tree.Keys;
  }

  lemma LowerBack(s1: Fleet, hi: nat, t: Task, ts: nat) returns (s': Fleet, k: nat)
    requires Wf(s1) && s1.tl.tree.Keys == {hi} && s1.out == map[t.pid := t] && t.weight > 0
    ensures Enabled(s1, Return(t.pid, 0)) && s' == Step(s1, Return(t.pid, 0), ts) && Wf(s') && s'.out == map[]
    ensures s'.tl.tree == s1.tl.tree[k := t.(timebase := k)] && k != hi
    ensures k >= t.timebase + Charge(t.runtime, t.weight) + 2 * MIN_GRANULARITY
  {
    assert t.pid in s1.out && s1.out[t.pid] == t;
    StepWf(s1, Return(t.pid, 0), ts);
    s' := Step(s1, Return(t.pid, 0), ts);
    var base := ReturnIsInsert(s1, t.pid, 0, ts);
    k := InsertFacts(s1.tl, t, base);
    assert hi in s1.tl.tree.Keys && s1.out - {t.pid} == map[];
  }

  // The lower of two tasks uses its whole slice.
  lemma WholeSlice(s: Fleet, lo: nat, hi: nat, ts: nat) returns (s': Fleet, k: nat, t: Task)
    requires Wf(s) && s.out == map[] && lo < hi && s.tl.tree.Keys == {lo, hi} && s.tl.tree[lo].weight <= 6
    ensures t.pid == s.tl.tree[lo].pid && Enabled(Step(s, Dispatch, ts), Return(t.pid, 0))
    ensures s' == Step(Step(s, Dispatch, ts), Return(t.pid, 0), ts) && Wf(s') && s'.out == map[]
    ensures Overtakes(s.tl.tree, s'.tl.tree, lo, hi, k)
  {
    var s1;
    s1, t := LowerOut(s, lo, hi, ts);
    s', k := LowerBack(s1, hi, t, ts);
    ChargeAtLeast(t.runtime, t.weight);
  }

  // After a turn of each, one of them of weight a fifth, the gap has grown.
  lemma GapGrows(lo: nat, hi: nat, k: nat, k': nat, first: bool)
    requires lo < hi && 3 * (k - hi) >= 2 * (hi - lo) + 298 && 3 * (k' - k) >= 2 * (k - hi) + 298
    requires if first then k - hi >= 4 * (hi - lo) + 100 else k' - k >= 4 * (k - hi) + 100
    ensures hi < k < k' && k' - k >= hi - lo + 100
  {
  }

  function Gap(x: nat, y: nat): nat { if x < y then y - x else x - y }

  lemma LightAfter(tree: map<nat, Task>, tree1: map<nat, Task>, tree2: map<nat, Task>, x: nat, y: nat, k: nat, k': nat)
    requires TwoLight(tree, x, y)
    requires Overtakes(tree, tree1, Min(x, y), Max(x, y), k) && Overtakes(tree1, tree2, Max(x, y), k, k')
    ensures var x', y' := if x < y then k else k', if x < y then k' else k;
            TwoLight(tree2, x', y') && tree2.Keys == {x', y'} && Gap(x', y') >= Gap(x, y) + 100
  {
    GapGrows(Min(x, y), Max(x, y), k, k', x < y);
  }

  // The two tasks after a turn of each.
  lemma TwoTurns(s: Fleet, x: nat, y: nat, ts: nat) returns (s1: Fleet, s2: Fleet, x': nat, y': nat, a: nat, b: nat)
    requires Rivals(s, x, y) && s.tl.tree.Keys == {x, y}
    ensures Enabled(Step(s, Dispatch, ts), Return(a, 0)) && s1 == Step(Step(s, Dispatch, ts), Return(a, 0), ts)
    ensures Enabled(Step(s1, Dispatch, ts), Return(b, 0)) && s2 == Step(Step(s1, Dispatch, ts), Return(b, 0), ts)
    ensures s1.out == map[] && Rivals(s2, x', y') && s2.tl.tree.Keys == {x', y'} && Gap(x', y') >= Gap(x, y) + 100
  {
    var lo, hi := Min(x, y), Max(x, y);
    var k, t := 0, s.tl.tree[lo];
    s1, k, t := WholeSlice(s, lo, hi, ts);
    a := t.pid;
    var k';
    s2, k', t := WholeSlice(s1, hi, k, ts);
    b := t.pid;
    x', y' := if x < y then k else k', if x < y then k' else k;
    LightAfter(s.tl.tree, s1.tl.tree, s2.tl.tree, x, y, k, k');
  }

  /** Two such tasks alone drift apart beyond any bound. */
  lemma {:induction false} AloneDiverge(s: Fleet, x: nat, y: nat, w: nat, ts: nat) returns (es: seq<Event>)
    requires Rivals(s, x, y) && s.tl.tree.Keys == {x, y}
    ensures Exceeds(s, es, w, ts)
    decreases if Gap(x, y) > w then 0 else 1 + w - Gap(x, y)
  {
    if Gap(x, y) > w {
      es := [];
      assert Legal(s, [], ts);
    } else {
      var s1, s2, x', y', a, b := TwoTurns(s, x, y, ts);
      es := AloneDiverge(s2, x', y', w, ts);
      ExceedsAfterTurn(s1, Return(b, 0), es, w, ts);
      es := [Dispatch, Return(b, 0)] + es;
      ExceedsAfterTurn(s, Return(a, 0), es, w, ts);
      es := [Dispatch, Return(a, 0)] + es;
    }
  }

  // ---- the others leave ----

  function Short(x: nat, top: nat): nat { if x < top then top - x else 0 }

  // The least task, one of the others, ends.
  lemma Leaves(s: Fleet, x: nat, y: nat, ts: nat) returns (pid: nat, s': Fleet)
    requires Rivals(s, x, y) && !IsLeast(s.tl.tree.Keys, x) && !IsLeast(s.tl.tree.Keys, y)
    ensures Enabled(Step(s, Dispatch, ts), Finish(pid)) && s' == Step(Step(s, Dispatch, ts), Finish(pid), ts)
    ensures Rivals(s', x, y) && |s'.tl.tree| < |s.tl.tree|
    ensures forall k :: k in s'.tl.tree ==> k in s.tl.tree
  {
    var k, s1, t := Taken(s, ts);
    pid := t.pid;
    FinishWf(s1, pid);
    StepWf(s1, Finish(pid), ts);
    s' := Step(s1, Finish(pid), ts);
    assert s1.out - {pid} == map[];
    assert (s.tl.tree - {k}).Keys == s.tl.tree.Keys - {k};
    assert |s.tl.tree.Keys - {k}| < |s.tl.tree.Keys|;
  }

  lemma Moved(tree: map<nat, Task>, k: nat, k': nat, t: Task)
    requires k in tree && k' !in tree - {k}
    ensures var tree' := (tree - {k})[k' := t];
            && |tree'| == |tree| && tree'.Keys == tree.Keys - {k} + {k'} && tree'[k'] == t
            && forall j :: j in tree && j != k ==> j in tree' && tree'[j] == tree[j]
  {
    var tree' := (tree - {k})[k' := t];
    assert |tree.Keys - {k}| == |tree.Keys| - 1;
    assert tree'.Keys == (tree.Keys - {k}) + {k'};
    assert |tree'.Keys| == |tree.Keys - {k}| + 1;
  }

  // The least task, one of the two, hands back its whole slice.
  lemma StepsAside(s: Fleet, k: nat, ts: nat) returns (pid: nat, r: nat, s': Fleet, k': nat)
    requires Wf(s) && s.out == map[] && IsLeast(s.tl.tree.Keys, k)
    ensures Enabled(Step(s, Dispatch, ts), Return(pid, r)) && s' == Step(Step(s, Dispatch, ts), Return(pid, r), ts)
    ensures Wf(s') && s'.out == map[] && k' > k && k' !in s.tl.tree - {k}
    ensures exists t: Task :: t.weight == s.tl.tree[k].weight && s'.tl.tree == (s.tl.tree - {k})[k' := t]
  {
    var least, s1, t := Taken(s, ts);
    assert least == k;
    pid, r := t.pid, t.runtime;
    StepWf(s1, Return(pid, r), ts);
    s' := Step(s1, Return(pid, r), ts);
    k' := ReturnKey(s1, pid, r, ts);
    assert s1.out - {pid} == map[];
    assert s'.tl.tree == (s.tl.tree - {k})[k' := t.(timebase := k')];
  }

  // The keys of the others, and no key above top among them.
  ghost predicate OthersBelow(tree: map<nat, Task>, x: nat, y: nat, top: nat) {
    forall k :: k in tree && k != x && k != y ==> k <= top
  }

  lemma MovedLight(tree: map<nat, Task>, x: nat, y: nat, top: nat, k: nat, k': nat, t: Task)
    requires TwoLight(tree, x, y) && OthersBelow(tree, x, y, top) && (k == x || k == y)
    requires k' !in tree - {k} && t.weight == tree[k].weight
    ensures var tree', x', y' := (tree - {k})[k' := t], if k == x then k' else x, if k == x then y else k';
            TwoLight(tree', x', y') && OthersBelow(tree', x', y', top) && |tree'| == |tree|
  {
    Moved(tree, k, k', t);
  }

  lemma OneAside(s: Fleet, x: nat, y: nat, top: nat, ts: nat) returns (pid: nat, r: nat, s': Fleet, x': nat, y': nat)
    requires Rivals(s, x, y) && OthersBelow(s.tl.tree, x, y, top)
    requires IsLeast(s.tl.tree.Keys, x) || IsLeast(s.tl.tree.Keys, y)
    ensures Enabled(Step(s, Dispatch, ts), Return(pid, r)) && s' == Step(Step(s, Dispatch, ts), Return(pid, r), ts)
    ensures Rivals(s', x', y') && OthersBelow(s'.tl.tree, x', y', top) && |s'.tl.tree| == |s.tl.tree|
    ensures x' >= x && y' >= y && (if IsLeast(s.tl.tree.Keys, x) then x' > x else y' > y)
  {
    var k := if IsLeast(s.tl.tree.Keys, x) then x else y;
    var k';
    pid, r, s', k' := StepsAside(s, k, ts);
    var t: Task :| t.weight == s.tl.tree[k].weight && s'.tl.tree == (s.tl.tree - {k})[k' := t];
    x', y' := if k == x then k' else x, if k == x then y else k';
    MovedLight(s.tl.tree, x, y, top, k, k', t);
  }

  /** Beside any other tasks: the others end, one after another, and the two are alone. */
  lemma {:induction false} OthersLeave(s: Fleet, x: nat, y: nat, top: nat, w: nat, ts: nat) returns (es: seq<Event>)
    requires Rivals(s, x, y) && OthersBelow(s.tl.tree, x, y, top)
    ensures Exceeds(s, es, w, ts)
    decreases |s.tl.tree|, Short(x, top) + Short(y, top)
  {
    if s.tl.tree.Keys == {x, y} {
      es := AloneDiverge(s, x, y, w, ts);
    } else if IsLeast(s.tl.tree.Keys, x) || IsLeast(s.tl.tree.Keys, y) {
      AnotherAbove(s.tl.tree, x, y, top);
      var pid, r, s', x', y' := OneAside(s, x, y, top, ts);
      es := OthersLeave(s', x', y', top, w, ts);
      ExceedsAfterTurn(s, Return(pid, r), es, w, ts);
      es := [Dispatch, Return(pid, r)] + es;
    } else {
      var pid, s' := Leaves(s, x, y, ts);
      es := OthersLeave(s', x, y, top, w, ts);
      ExceedsAfterTurn(s, Finish(pid), es, w, ts);
      es := [Dispatch, Finish(pid)] + es;
    }
  }

  lemma AnotherAbove(tree: map<nat, Task>, x: nat, y: nat, top: nat)
    requires x in tree && y in tree && tree.Keys != {x, y} && OthersBelow(tree, x, y, top)
    ensures IsLeast(tree.Keys, x) ==> x < top
    ensures IsLeast(tree.Keys, y) ==> y < top
  {
    var other :| other in tree.Keys && other != x && other != y;
  }

  // ---- the exact condition ----

  lemma LaunchedAt(s: Fleet, prios: seq<Priority>, i: nat) returns (x: nat)
    requires Launched(s, prios) && i < |prios|
    ensures x in s.tl.tree && s.tl.tree[x].pid == i + 1 && s.tl.tree[x].weight == WeightTenths(prios[i])
  {
    assert HasPid(s.tl.tree, i + 1);
    x :| x in s.tl.tree && s.tl.tree[x].pid == i + 1;
    assert IsLaunched(s.tl.tree[x], prios);
  }

  lemma LaunchRivals(prios: seq<Priority>, i: nat, j: nat, ts: nat) returns (s: Fleet, x: nat, y: nat)
    requires i < |prios| && j < |prios| && i != j && prios[i].VeryLow? && WeightTenths(prios[j]) < 10
    ensures s == Launch(prios, ts) && Rivals(s, x, y) && OthersBelow(s.tl.tree, x, y, 150 + 50 * |prios|)
  {
    s := Launch(prios, ts);
    LaunchKeys(prios, ts);
    x := LaunchedAt(s, prios, i);
    y := LaunchedAt(s, prios, j);
  }

  // Started with these priorities, no two keys ever get more than w apart.
  ghost predicate Bounded(prios: seq<Priority>, w: nat, ts: nat) {
    forall es :: !Exceeds(Launch(prios, ts), es, w, ts)
  }

  /** The window is bounded if and only if no task of very low priority is started
      together with another below weight one. */
  lemma BoundedIff(prios: seq<Priority>, ts: nat)
    ensures Steady(prios) ==> Bounded(prios, Window(prios), ts)
    ensures (exists w: nat :: Bounded(prios, w, ts)) <==> Steady(prios)
  {
    if Steady(prios) {
      forall es ensures !Exceeds(Launch(prios, ts), es, Window(prios), ts) {
        if Legal(Launch(prios, ts), es, ts) && OneAtATime(Launch(prios, ts), es, ts) && NoArrivals(es) {
          KeyWindow(prios, es, ts);
        }
      }
      assert Bounded(prios, Window(prios), ts);
    } else {
      var i, j :| 0 <= i < |prios| && 0 <= j < |prios| && i != j && prios[i].VeryLow? && WeightTenths(prios[j]) < 10;
      forall w: nat ensures !Bounded(prios, w, ts) {
        var s, x, y := LaunchRivals(prios, i, j, ts);
        var es := OthersLeave(s, x, y, 150 + 50 * |prios|, w, ts);
        assert Exceeds(Launch(prios, ts), es, w, ts);
      }
    }
  }
}
