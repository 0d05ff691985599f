/** Whole runs of the fair scheduler: any number of arrivals, selections, returns and
    completions, in any order the dispatch loops can produce. */
module FairRuns {
  import opened Scheduling
  import opened FairTimeline

  // out holds the selected tasks that have not come back yet, by pid; seen holds every
  // pid ever scheduled, because pids are handed out once (lib/yarn.c:159-168).
  datatype Fleet = Fleet(tl: Timeline, out: map<nat, Task>, seen: set<nat>)

  datatype Event =
    | Arrive(pid: nat, prio: Priority)
    | Dispatch
    | Return(pid: nat, remaining: nat)
    | Finish(pid: nat)

  const INIT := Fleet(EMPTY, map[], {})

  ghost predicate DistinctPids(tree: map<nat, Task>) {
    forall j, k :: j in tree && k in tree && j != k ==> tree[j].pid != tree[k].pid
  }

  lemma FiledDistinct(tree: map<nat, Task>, k: nat, t: Task)
    requires DistinctPids(tree) && k !in tree && forall j :: j in tree ==> tree[j].pid != t.pid
    ensures DistinctPids(tree[k := t])
  {
  }

  ghost predicate Wf(s: Fleet) {
    && (forall k :: k in s.tl.tree ==>
          && s.tl.tree[k].timebase == k
          && s.tl.tree[k].weight > 0
          && s.tl.tree[k].pid in s.seen
          && s.tl.tree[k].pid !in s.out)
    && DistinctPids(s.tl.tree)
    && (forall p :: p in s.out ==> s.out[p].pid == p && p in s.seen && s.out[p].weight > 0)
    && s.tl.load == Weights(s.tl.tree) + Weights(s.out)
  }

  predicate Enabled(s: Fleet, e: Event) {
    match e
    case Arrive(pid, _) => pid > 0 && pid !in s.seen
    case Dispatch => true
    case Return(pid, remaining) => pid in s.out && remaining <= s.out[pid].runtime && s.out[pid].weight > 0
    case Finish(pid) => pid in s.out && s.out[pid].weight <= s.tl.load
  }

  function Step(s: Fleet, e: Event, ts: nat): Fleet
    requires Enabled(s, e)
  {
    match e
    case Arrive(pid, prio) => s.(tl := Schedule(s.tl, pid, prio), seen := s.seen + {pid})
    case Dispatch =>
      var (tl, picked) := Select(s.tl, ts);
      s.(tl := tl, out := if picked.Some? then s.out[picked.value.pid := picked.value] else s.out)
    case Return(pid, remaining) => s.(tl := Reschedule(s.tl, s.out[pid], remaining), out := s.out - {pid})
    case Finish(pid) => s.(tl := Unschedule(s.tl, s.out[pid]), out := s.out - {pid})
  }

  ghost predicate Legal(s: Fleet, es: seq<Event>, ts: nat)
    decreases |es|
  {
    es == [] || (Enabled(s, es[0]) && Legal(Step(s, es[0], ts), es[1..], ts))
  }

  ghost function Run(s: Fleet, es: seq<Event>, ts: nat): Fleet
    requires Legal(s, es, ts)
    decreases |es|
  {
    if es == [] then s else Run(Step(s, es[0], ts), es[1..], ts)
  }

  // Tasks taken from the timeline, in order.
  ghost function Picks(s: Fleet, es: seq<Event>, ts: nat): seq<Task>
    requires Legal(s, es, ts)
    decreases |es|
  {
    if es == [] then []
    else
      (if es[0].Dispatch? && s.tl.tree != map[] then [Select(s.tl, ts).1.value] else [])
      + Picks(Step(s, es[0], ts), es[1..], ts)
  }

  ghost predicate NoArrivals(es: seq<Event>) {
    forall i :: 0 <= i < |es| ==> !es[i].Arrive?
  }

  ghost predicate Spared(picks: seq<Task>, pid: nat) {
    forall i :: 0 <= i < |picks| ==> picks[i].pid != pid
  }

  // ---- the invariant: keys, unique pids, load ----

  lemma InsertFacts(tl: Timeline, task: Task, base: nat) returns (k: nat)
    ensures k == LeastFree(tl.tree, base + 2 * MIN_GRANULARITY + tl.offset)
    ensures k !in tl.tree
    ensures base + 2 * MIN_GRANULARITY + tl.offset <= k <= base + 2 * MIN_GRANULARITY + tl.offset + |tl.tree|
    ensures Insert(tl, task, base).tree == tl.tree[k := task.(timebase := k)]
    ensures Weights(Insert(tl, task, base).tree) == Weights(tl.tree) + task.weight
    ensures Insert(tl, task, base).load == tl.load
  {
    k := LeastFree(tl.tree, base + 2 * MIN_GRANULARITY + tl.offset);
    LeastFreeWithinSize(tl.tree, base + 2 * MIN_GRANULARITY + tl.offset);
    WeightsAdd(tl.tree, k, task.(timebase := k));
  }

  // A task filed at a free key under its own timebase keeps the invariant.
  lemma FiledWf(s: Fleet, s': Fleet, k: nat, t: Task)
    requires Wf(s) && k !in s.tl.tree && t.timebase == k && t.weight > 0 && t.pid in s.seen && t.pid !in s.out
    requires forall j :: j in s.tl.tree ==> s.tl.tree[j].pid != t.pid
    requires s'.tl.tree == s.tl.tree[k := t] && s'.out == s.out && s'.seen == s.seen
    requires s'.tl.load == Weights(s'.tl.tree) + Weights(s.out)
    ensures Wf(s')
  {
    FiledDistinct(s.tl.tree, k, t);
  }

  lemma InsertWf(s: Fleet, task: Task, base: nat)
    requires Wf(s) && task.weight > 0 && task.pid in s.seen && task.pid !in s.out
    requires forall k :: k in s.tl.tree ==> s.tl.tree[k].pid != task.pid
    ensures Wf(s.(tl := Insert(s.tl, task, base).(load := s.tl.load + task.weight)))
  {
    var k := InsertFacts(s.tl, task, base);
    FiledWf(s, s.(tl := Insert(s.tl, task, base).(load := s.tl.load + task.weight)), k, task.(timebase := k));
  }

  lemma DispatchWf(s: Fleet, ts: nat)
    requires Wf(s) && s.tl.tree != map[]
    ensures Wf(Step(s, Dispatch, ts))
  {
    var k := LeastKey(s.tl.tree);
    var t := Select(s.tl, ts).1.value;
    WeightsPick(s.tl.tree, k);
    WeightsAdd(s.out, t.pid, t);
  }

  lemma FinishWf(s: Fleet, pid: nat)
    requires Wf(s) && pid in s.out
    ensures Enabled(s, Finish(pid))
    ensures Wf(s.(tl := Unschedule(s.tl, s.out[pid]), out := s.out - {pid}))
  {
    WeightsPick(s.out, pid);
  }

  lemma ScheduleIsInsert(tl: Timeline, pid: nat, prio: Priority)
    ensures var task := Task(pid, 0, 0, WeightTenths(prio));
            var least := if tl.tree == map[] then 0 else LeastKey(tl.tree);
            Schedule(tl, pid, prio) == Insert(tl, task, least).(load := tl.load + task.weight)
  {
  }

  lemma SeenWf(s: Fleet, pid: nat)
    requires Wf(s)
    ensures Wf(s.(seen := s.seen + {pid}))
  {
  }

  lemma ArriveWf(s: Fleet, pid: nat, prio: Priority, ts: nat)
    requires Wf(s) && Enabled(s, Arrive(pid, prio))
    ensures Wf(Step(s, Arrive(pid, prio), ts))
  {
    var least := if s.tl.tree == map[] then 0 else LeastKey(s.tl.tree);
    SeenWf(s, pid);
    ScheduleIsInsert(s.tl, pid, prio);
    InsertWf(s.(seen := s.seen + {pid}), Task(pid, 0, 0, WeightTenths(prio)), least);
  }

  lemma InsertLoad(tl: Timeline, task: Task, base: nat, load: nat)
    ensures Insert(tl.(load := load), task, base).(load := tl.load) == Insert(tl, task, base)
  {
  }

  lemma OffsetWf(s: Fleet)
    requires Wf(s)
    ensures Wf(s.(tl := s.tl.(offset := 0)))
  {
  }

  lemma ReturnWf(s: Fleet, pid: nat, remaining: nat, ts: nat)
    requires Wf(s) && Enabled(s, Return(pid, remaining))
    ensures Wf(Step(s, Return(pid, remaining), ts))
  {
    var t := s.out[pid];
    FinishWf(s, pid);
    var base := ReturnIsInsert(s, pid, remaining, ts);
    ReturnInsertWf(s, pid, base);
    OffsetWf(s.(tl := Insert(s.tl, t, base), out := s.out - {pid}));
  }

  lemma ReturnInsertWf(s: Fleet, pid: nat, base: nat)
    requires Wf(s) && pid in s.out && s.out[pid].weight <= s.tl.load
    requires Wf(s.(tl := Unschedule(s.tl, s.out[pid]), out := s.out - {pid}))
    ensures Wf(s.(tl := Insert(s.tl, s.out[pid], base), out := s.out - {pid}))
  {
    var t := s.out[pid];
    InsertWf(s.(tl := Unschedule(s.tl, t), out := s.out - {pid}), t, base);
    InsertLoad(s.tl, t, base, s.tl.load - t.weight);
  }

  lemma StepWf(s: Fleet, e: Event, ts: nat)
    requires Wf(s) && Enabled(s, e)
    ensures Wf(Step(s, e, ts))
  {
    match e
    case Arrive(pid, prio) => ArriveWf(s, pid, prio, ts);
    case Dispatch => if s.tl.tree != map[] { DispatchWf(s, ts); }
    case Return(pid, remaining) => ReturnWf(s, pid, remaining, ts);
    case Finish(pid) => FinishWf(s, pid);
  }

  // The invariant, folded: it opens where Wf is named.
  ghost predicate Kept(s: Fleet) { forall t {:trigger Wf(t)} :: t == s ==> Wf(t) }

  lemma StepKept(s: Fleet, e: Event, ts: nat)
    requires Kept(s) && Enabled(s, e)
    ensures Kept(Step(s, e, ts))
  {
    assert Wf(s);
    StepWf(s, e, ts);
  }

  /** Over any run from the empty scheduler: keys are their tasks' own timebases, no pid
      is in two places, and the load is exactly the weight queued plus outstanding. */
  lemma {:induction false} RunWf(s: Fleet, es: seq<Event>, ts: nat)
    requires Wf(s) && Legal(s, es, ts)
    ensures Wf(Run(s, es, ts))
    decreases |es|
  {
    if es != [] {
      StepWf(s, es[0], ts);
      RunWf(Step(s, es[0], ts), es[1..], ts);
    }
  }

  // ---- starvation freedom, with unlimited arrivals ----

  // At most one task is out at a time: one core, no suspension.
  ghost predicate OneAtATime(s: Fleet, es: seq<Event>, ts: nat)
    requires Legal(s, es, ts)
    decreases |es|
  {
    es != [] ==>
      && (es[0].Dispatch? ==> s.out == map[])
      && OneAtATime(Step(s, es[0], ts), es[1..], ts)
  }

  // No key below this can be selected while some task waits.
  ghost predicate IsFloor(s: Fleet, b: nat) {
    && (forall k :: k in s.tl.tree ==> b <= k)
    && (forall p :: p in s.out ==> b <= s.out[p].timebase + 2 * MIN_GRANULARITY)
  }

  lemma ReturnIsInsert(s: Fleet, pid: nat, remaining: nat, ts: nat) returns (base: nat)
    requires Enabled(s, Return(pid, remaining))
    ensures base == s.out[pid].timebase + Charge(s.out[pid].runtime - remaining, s.out[pid].weight)
    ensures Step(s, Return(pid, remaining), ts).tl == Insert(s.tl, s.out[pid], base).(offset := 0)
    ensures base >= s.out[pid].timebase
  {
    base := s.out[pid].timebase + Charge(s.out[pid].runtime - remaining, s.out[pid].weight);
  }

  lemma ReturnKey(s: Fleet, pid: nat, remaining: nat, ts: nat) returns (k: nat)
    requires Enabled(s, Return(pid, remaining))
    ensures k !in s.tl.tree && k >= s.out[pid].timebase + 2 * MIN_GRANULARITY
    ensures var used := s.out[pid].runtime - remaining;
            k == LeastFree(s.tl.tree, s.out[pid].timebase + Charge(used, s.out[pid].weight)
                                      + 2 * MIN_GRANULARITY + s.tl.offset)
    ensures Step(s, Return(pid, remaining), ts).tl.tree == s.tl.tree[k := s.out[pid].(timebase := k)]
  {
    var base := ReturnIsInsert(s, pid, remaining, ts);
    k := InsertFacts(s.tl, s.out[pid], base);
  }

  lemma ArriveKey(s: Fleet, pid: nat, prio: Priority, ts: nat) returns (k: nat, t: Task)
    requires Enabled(s, Arrive(pid, prio))
    ensures k !in s.tl.tree && t == Task(pid, 0, k, WeightTenths(prio))
    ensures s.tl.tree != map[] ==> k >= LeastKey(s.tl.tree) + 2 * MIN_GRANULARITY
    ensures Step(s, Arrive(pid, prio), ts).tl.tree == s.tl.tree[k := t]
  {
    var least := if s.tl.tree == map[] then 0 else LeastKey(s.tl.tree);
    ScheduleIsInsert(s.tl, pid, prio);
    t := Task(pid, 0, 0, WeightTenths(prio));
    k := InsertFacts(s.tl, t, least);
    t := t.(timebase := k);
  }

  // The floor survives every step made while a task waits.
  lemma FloorKept(s: Fleet, e: Event, b: nat, ts: nat)
    requires Wf(s) && Enabled(s, e) && s.tl.tree != map[] && IsFloor(s, b)
    ensures IsFloor(Step(s, e, ts), b)
  {
  }

  // A selection on one core leaves only keys above the one it took.
  lemma DispatchRaisesFloor(s: Fleet, ts: nat)
    requires Wf(s) && s.tl.tree != map[] && s.out == map[]
    ensures IsFloor(Step(s, Dispatch, ts), Select(s.tl, ts).1.value.timebase + 1)
  {
  }

  lemma WaiterKept(s: Fleet, e: Event, k: nat, ts: nat)
    requires Wf(s) && Enabled(s, e) && k in s.tl.tree
    requires e.Dispatch? ==> Select(s.tl, ts).1.value.pid != s.tl.tree[k].pid
    ensures var s' := Step(s, e, ts); k in s'.tl.tree && s'.tl.tree[k] == s.tl.tree[k]
  {
  }

  // Strictly increasing keys within [b, k).
  ghost predicate Ascending(ps: seq<Task>, b: nat, k: nat) {
    && (forall i :: 0 <= i < |ps| ==> b <= ps[i].timebase < k)
    && (forall i, j :: 0 <= i < j < |ps| ==> ps[i].timebase < ps[j].timebase)
  }

  lemma AscendingCons(first: Task, rest: seq<Task>, b: nat, k: nat)
    requires b <= first.timebase < k && Ascending(rest, first.timebase + 1, k)
    ensures Ascending([first] + rest, b, k)
  {
  }

  lemma {:induction false} AscendingCount(ps: seq<Task>, b: nat, k: nat)
    requires b <= k && Ascending(ps, b, k)
    ensures |ps| <= k - b
  {
    if |ps| > 0 {
      AscendingCount(ps[..|ps| - 1], b, ps[|ps| - 1].timebase);
    }
  }

  lemma PicksCons(s: Fleet, es: seq<Event>, ts: nat)
    requires Legal(s, es, ts) && es != []
    ensures var rest := Picks(Step(s, es[0], ts), es[1..], ts);
            Picks(s, es, ts) ==
              if es[0].Dispatch? && s.tl.tree != map[] then [Select(s.tl, ts).1.value] + rest else rest
  {
  }

  lemma SparedCons(first: Task, rest: seq<Task>, pid: nat)
    ensures Spared([first] + rest, pid) <==> first.pid != pid && Spared(rest, pid)
  {
    var ps := [first] + rest;
    assert ps[0] == first;
    assert forall i :: 0 <= i < |rest| ==> rest[i] == ps[i + 1];
  }

  /** While a task waits at key k, on one core, the keys selected strictly increase, start
      no lower than the floor and stay below k, whatever arrives in the meantime. */
  lemma {:induction false} SelectedKeysAscend(s: Fleet, es: seq<Event>, k: nat, b: nat, ts: nat)
    requires Wf(s) && Legal(s, es, ts) && OneAtATime(s, es, ts)
    requires k in s.tl.tree && IsFloor(s, b) && Spared(Picks(s, es, ts), s.tl.tree[k].pid)
    ensures Ascending(Picks(s, es, ts), b, k)
    decreases |es|
  {
    if es != [] {
      var s' := Step(s, es[0], ts);
      var rest := Picks(s', es[1..], ts);
      StepWf(s, es[0], ts);
      PicksCons(s, es, ts);
      if es[0].Dispatch? {
        var first := Select(s.tl, ts).1.value;
        SparedCons(first, rest, s.tl.tree[k].pid);
        WaiterKept(s, es[0], k, ts);
        DispatchRaisesFloor(s, ts);
        SelectedKeysAscend(s', es[1..], k, first.timebase + 1, ts);
        AscendingCons(first, rest, b, k);
      } else {
        WaiterKept(s, es[0], k, ts);
        FloorKept(s, es[0], b, ts);
        SelectedKeysAscend(s', es[1..], k, b, ts);
      }
    }
  }

  /** No starvation: on one core a task waiting at key k is among the next k - b + 1
      selections, for any floor b, under any arrivals. */
  lemma NoStarvation(s: Fleet, es: seq<Event>, k: nat, b: nat, ts: nat)
    requires Wf(s) && Legal(s, es, ts) && OneAtATime(s, es, ts)
    requires k in s.tl.tree && IsFloor(s, b)
    requires |Picks(s, es, ts)| > k - b
    ensures exists i :: 0 <= i <= k - b && Picks(s, es, ts)[i].pid == s.tl.tree[k].pid
  {
    var ps := Picks(s, es, ts);
    var n := k - b + 1;
    if forall i :: 0 <= i < n ==> ps[i].pid != s.tl.tree[k].pid {
      var m := PrefixWithPicks(s, es, n, ts);
      PicksPrefix(s, es, m, ts);
      SelectedKeysAscend(s, es[..m], k, b, ts);
      AscendingCount(Picks(s, es[..m], ts), b, k);
      assert false;
    }
  }

  // A prefix of the run that makes exactly n selections.
  lemma {:induction false} PrefixWithPicks(s: Fleet, es: seq<Event>, n: nat, ts: nat) returns (m: nat)
    requires Legal(s, es, ts) && n <= |Picks(s, es, ts)|
    ensures m <= |es| && Legal(s, es[..m], ts) && |Picks(s, es[..m], ts)| == n
    decreases |es|
  {
    if n == 0 {
      m := 0;
    } else {
      var s' := Step(s, es[0], ts);
      var here := if es[0].Dispatch? && s.tl.tree != map[] then 1 else 0;
      var m' := PrefixWithPicks(s', es[1..], n - here, ts);
      m := m' + 1;
      assert es[..m][1..] == es[1..][..m'];
      assert es[..m][0] == es[0];
    }
  }

  lemma {:induction false} PicksPrefix(s: Fleet, es: seq<Event>, m: nat, ts: nat)
    requires Legal(s, es, ts) && m <= |es|
    ensures Legal(s, es[..m], ts)
    ensures Picks(s, es[..m], ts) <= Picks(s, es, ts)
    ensures OneAtATime(s, es, ts) ==> OneAtATime(s, es[..m], ts)
    decreases |es|
  {
    if m > 0 {
      PicksPrefix(Step(s, es[0], ts), es[1..], m - 1, ts);
      assert es[..m][1..] == es[1..][..m - 1];
      assert es[..m][0] == es[0];
    }
  }
}
