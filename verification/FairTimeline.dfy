/** The virtual-time timeline of the completely fair scheduler, as a value.
    Weights are exact tenths; a charge is the truncated quotient of the time used by
    the weight; virtual time is unbounded. */
module FairTimeline {
  import opened Scheduling

  const MIN_GRANULARITY: nat := 50

  // weight in tenths; timebase is the key it was last filed under.
  datatype Task = Task(pid: nat, runtime: nat, timebase: nat, weight: nat)

  datatype Timeline = Timeline(tree: map<nat, Task>, offset: nat, load: nat)

  const EMPTY: Timeline := Timeline(map[], 0, 0)

  function WeightTenths(prio: Priority): (w: nat)
    ensures 2 <= w <= 50
  {
    match prio
    case Titanic => 50
    case VeryHigh => 30
    case High => 20
    case Normal => 10
    case Low => 6
    case VeryLow => 2
  }

  // A more urgent priority weighs more.
  lemma UrgentWeighsMore(a: Priority, b: Priority)
    requires Rank(a) < Rank(b)
    ensures WeightTenths(a) > WeightTenths(b)
  {
  }

  // Virtual time charged for `used` units of real time.
  function Charge(used: nat, weight: nat): nat
    requires weight > 0
  {
    used * 10 / weight
  }

  // What 300 units of real time cost at each priority.
  lemma ChargeByPriority(prio: Priority)
    ensures Charge(300, WeightTenths(prio))
         == match prio
            case Titanic => 60
            case VeryHigh => 100
            case High => 150
            case Normal => 300
            case Low => 500
            case VeryLow => 1500
  {
  }

  // ---- the tree: a finite map with a least key ----

  ghost predicate IsLeast(keys: set<nat>, k: nat) {
    k in keys && forall j :: j in keys ==> k <= j
  }

  lemma {:induction false} LeastExists(keys: set<nat>)
    requires keys != {}
    ensures exists k :: IsLeast(keys, k)
  {
    var k :| k in keys;
    if keys == {k} {
      assert IsLeast(keys, k);
    } else {
      assert keys - {k} != {} by { assert !(keys <= {k}); }
      LeastExists(keys - {k});
      var m :| IsLeast(keys - {k}, m);
      assert forall j :: j in keys ==> j == k || j in keys - {k};
      assert IsLeast(keys, Min(k, m));
    }
  }

  function LeastKey<T>(tree: map<nat, T>): (k: nat)
    requires tree != map[]
    ensures IsLeast(tree.Keys, k)
  {
    assert tree.Keys != {} by { var x :| x in tree; }
    LeastExists(tree.Keys);
    assert forall j, k :: IsLeast(tree.Keys, j) && IsLeast(tree.Keys, k) ==> j <= k <= j;
    var k :| k in tree.Keys && forall j :: j in tree.Keys ==> k <= j;
    k
  }

  ghost function KeysFrom<T>(tree: map<nat, T>, t: nat): set<nat> {
    set k | k in tree && t <= k
  }

  lemma KeysFromNext<T>(tree: map<nat, T>, t: nat)
    requires t in tree
    ensures |KeysFrom(tree, t)| == |KeysFrom(tree, t + 1)| + 1
  {
    assert KeysFrom(tree, t) == KeysFrom(tree, t + 1) + {t};
  }

  lemma SetWithin(a: set<nat>, b: set<nat>)
    requires a <= b
    ensures |a| <= |b|
  {
    assert b == a + (b - a);
  }

  /** The least key at or above t that is free. */
  function LeastFree<T>(tree: map<nat, T>, t: nat): (k: nat)
    ensures t <= k && k !in tree
    ensures forall j :: t <= j < k ==> j in tree
    decreases |KeysFrom(tree, t)|
  {
    if t in tree then
      KeysFromNext(tree, t);
      LeastFree(tree, t + 1)
    else t
  }

  lemma {:induction false} LeastFreeNear<T>(tree: map<nat, T>, t: nat)
    ensures LeastFree(tree, t) <= t + |KeysFrom(tree, t)|
    decreases |KeysFrom(tree, t)|
  {
    if t in tree {
      KeysFromNext(tree, t);
      LeastFreeNear(tree, t + 1);
    }
  }

  // A collision moves a task by at most the number of entries in the tree.
  lemma LeastFreeWithinSize<T>(tree: map<nat, T>, t: nat)
    ensures LeastFree(tree, t) <= t + |tree|
  {
    LeastFreeNear(tree, t);
    SetWithin(KeysFrom(tree, t), tree.Keys);
  }

  // ---- scheduler operations ----

  function Insert(tl: Timeline, task: Task, base: nat): Timeline {
    var offset := tl.offset + MIN_GRANULARITY;
    var k := LeastFree(tl.tree, base + MIN_GRANULARITY + offset);
    tl.(tree := tl.tree[k := task.(timebase := k)], offset := offset)
  }

  function Schedule(tl: Timeline, pid: nat, prio: Priority): Timeline {
    var least := if tl.tree == map[] then 0 else LeastKey(tl.tree);
    var w := WeightTenths(prio);
    Insert(tl.(load := tl.load + w), Task(pid, 0, 0, w), least)
  }

  function Reschedule(tl: Timeline, task: Task, remaining: nat): Timeline
    requires task.weight > 0
    requires remaining <= task.runtime  // the source asserts this
  {
    Insert(tl, task, task.timebase + Charge(task.runtime - remaining, task.weight)).(offset := 0)
  }

  function Unschedule(tl: Timeline, task: Task): Timeline
    requires task.weight <= tl.load
  {
    tl.(load := tl.load - task.weight)
  }

  // How long a task taken from key k may run before the next one is due.
  function Slice(rest: map<nat, Task>, k: nat, timeslice: nat): nat
    requires forall j :: j in rest ==> k <= j
  {
    if rest == map[] then timeslice * 10 else Max(LeastKey(rest) - k, MIN_GRANULARITY)
  }

  function Select(tl: Timeline, timeslice: nat): (Timeline, Option<Task>) {
    if tl.tree == map[] then (tl, None)
    else
      var k := LeastKey(tl.tree);
      var rest := tl.tree - {k};
      (tl.(tree := rest), Some(tl.tree[k].(runtime := Slice(rest, k, timeslice))))
  }

  /** Selection takes exactly the entry at the least key. Its slice lasts until the next
      key is due but never less than the minimum, and ten timeslices when it is alone. */
  lemma SelectExact(tl: Timeline, timeslice: nat, k: nat)
    requires IsLeast(tl.tree.Keys, k)
    ensures var (tl', picked) := Select(tl, timeslice);
            && tl' == tl.(tree := tl.tree - {k})
            && picked.Some? && picked.value == tl.tree[k].(runtime := picked.value.runtime)
            && (tl'.tree == map[] ==> picked.value.runtime == 10 * timeslice)
            && (forall j :: j in tl'.tree ==> MIN_GRANULARITY <= picked.value.runtime <= Max(j - k, MIN_GRANULARITY))
            && (tl'.tree != map[] ==> exists j :: j in tl'.tree && picked.value.runtime == Max(j - k, MIN_GRANULARITY))
  {
    assert LeastKey(tl.tree) == k;
    var rest := tl.tree - {k};
    if rest != map[] {
      var j := LeastKey(rest);
      assert j in rest && Slice(rest, k, timeslice) == Max(j - k, MIN_GRANULARITY);
    }
  }

  /** A charge is the largest v with v times the weight, in tenths, within ten times the time
      used. */
  lemma ChargeExact(used: nat, weight: nat, v: nat)
    requires weight > 0
    ensures v <= Charge(used, weight) <==> v * weight <= used * 10
  {
    var q := used * 10 / weight;
    assert used * 10 == q * weight + used * 10 % weight;
    if v <= q {
      Scaled(v, q, weight);
    } else {
      Scaled(q + 1, v, weight);
      assert (q + 1) * weight == q * weight + weight;
    }
  }

  lemma Scaled(a: nat, b: nat, w: nat)
    requires a <= b
    ensures a * w <= b * w
  {
  }

  // ---- sum of weights ----

  ghost function Weights(tree: map<nat, Task>): nat {
    if tree == map[] then 0 else var k :| k in tree; tree[k].weight + Weights(tree - {k})
  }

  lemma {:induction false} WeightsPick(tree: map<nat, Task>, k: nat)
    requires k in tree
    ensures Weights(tree) == tree[k].weight + Weights(tree - {k})
  {
    var j :| j in tree && Weights(tree) == tree[j].weight + Weights(tree - {j});
    if j != k {
      WeightsPick(tree - {j}, k);
      WeightsPick(tree - {k}, j);
      assert tree - {j} - {k} == tree - {k} - {j};
    }
  }

  lemma WeightsAdd(tree: map<nat, Task>, k: nat, task: Task)
    requires k !in tree
    ensures Weights(tree[k := task]) == Weights(tree) + task.weight
  {
    WeightsPick(tree[k := task], k);
    assert tree[k := task] - {k} == tree;
  }
}
