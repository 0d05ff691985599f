/** No task of the fair scheduler starves, whatever arrives and however many tasks are out:
    a bound on the selections before a waiting task's turn that holds for every run. */
module FairStarvation {
  import opened Scheduling
  import opened FairTimeline
  import opened FairRuns
  import FairBypass

  const STRIDE: nat := FairBypass.STRIDE

  // ---- how much a task can still cost the one waiting at k ----

  function Below(k: nat, x: nat): nat { if x < k then k - x else 0 }

  // One selection, what the task's next stay costs, and the same for each arrival there is
  // room for.
  function Stays(room: nat, each: nat): nat {
    if room == 0 then 1 + each else each + Stays(room - 1, each)
  }

  // At most this many selections below k, d keys away, go to a task and to all that arrive
  // while it is the least: their stays are all a stride nearer.
  function Cost(d: nat): nat {
    if d == 0 then 0 else Stays(d, Cost(Below(d, STRIDE)))
  }

  lemma {:induction false} StaysMonotone(room: nat, each: nat, room': nat, each': nat)
    requires room <= room' && each <= each'
    ensures Stays(room, each) <= Stays(room', each') && each < Stays(room, each)
  {
    if room > 0 {
      StaysMonotone(room - 1, each, room' - 1, each');
    } else if room' > 0 {
      StaysMonotone(0, each, room' - 1, each');
    }
  }

  lemma {:induction false} CostMonotone(d: nat, e: nat)
    requires d <= e
    ensures Cost(d) <= Cost(e)
    decreases e
  {
    if d > 0 {
      CostMonotone(Below(d, STRIDE), Below(e, STRIDE));
      StaysMonotone(d, Cost(Below(d, STRIDE)), e, Cost(Below(e, STRIDE)));
    }
  }

  // The keys between m and k.
  ghost function Between(m: nat, k: nat): (r: set<nat>)
    ensures forall j :: j in r <==> m < j < k
    ensures |r| == if m + 1 < k then k - m - 1 else 0
  {
    if m + 1 >= k then {} else Between(m, k - 1) + {k - 1}
  }

  // How many of them are free.
  ghost function Room(keys: set<nat>, m: nat, k: nat): nat { |Between(m, k) - keys| }

  lemma {:induction false} SubsetSize(a: set<nat>, b: set<nat>)
    requires a <= b
    ensures |a| <= |b|
  {
    if a != {} {
      var x :| x in a;
      SubsetSize(a - {x}, b - {x});
    }
  }

  lemma RoomAtMost(keys: set<nat>, m: nat, k: nat)
    requires m < k
    ensures Room(keys, m, k) <= k - m - 1
  {
    SubsetSize(Between(m, k) - keys, Between(m, k));
  }

  // A key filled between them is one free key fewer.
  lemma RoomFilled(keys: set<nat>, y: nat, m: nat, k: nat)
    requires y !in keys
    ensures Room(keys + {y}, m, k) == Room(keys, m, k) - (if m < y < k then 1 else 0)
  {
    assert Between(m, k) - (keys + {y}) == Between(m, k) - keys - {y};
  }

  lemma RoomTaken(keys: set<nat>, x: nat, m: nat, k: nat)
    requires x <= m
    ensures Room(keys - {x}, m, k) == Room(keys, m, k)
  {
    assert Between(m, k) - (keys - {x}) == Between(m, k) - keys;
  }

  // Where a task is: waiting at a key, out and not back below a key, or gone.
  datatype Stay = Waiting(key: nat) | Away(next: nat) | Gone

  ghost function Rank(stay: Stay, keys: set<nat>, k: nat): nat {
    match stay
    case Waiting(m) => if m < k then Stays(Room(keys, m, k), Cost(Below(k, m + STRIDE))) else 0
    case Away(x) => Cost(Below(k, x))
    case Gone => 0
  }

  // A stay costs no more than a fresh one at its key.
  lemma RankAtMost(m: nat, keys: set<nat>, k: nat)
    ensures Rank(Waiting(m), keys, k) <= Cost(Below(k, m))
  {
    if m < k {
      RoomAtMost(keys, m, k);
      StaysMonotone(Room(keys, m, k), Cost(Below(k, m + STRIDE)), Below(k, m), Cost(Below(k, m + STRIDE)));
    }
  }

  lemma WaitingFilled(m: nat, keys: set<nat>, y: nat, k: nat)
    requires y !in keys && m < y < k
    ensures Rank(Waiting(m), keys + {y}, k) + Cost(Below(k, m + STRIDE)) == Rank(Waiting(m), keys, k)
  {
    RoomFilled(keys, y, m, k);
    StaysNext(Room(keys + {y}, m, k), Cost(Below(k, m + STRIDE)));
  }

  lemma StaysNext(room: nat, each: nat)
    ensures Stays(room + 1, each) == each + Stays(room, each)
  {
  }

  lemma RankFilled(stay: Stay, keys: set<nat>, y: nat, k: nat)
    requires y !in keys
    ensures Rank(stay, keys + {y}, k) <= Rank(stay, keys, k)
  {
    if stay.Waiting? {
      if stay.key < y < k {
        WaitingFilled(stay.key, keys, y, k);
      } else {
        RoomFilled(keys, y, stay.key, k);
      }
    }
  }

  lemma RankTaken(stay: Stay, keys: set<nat>, x: nat, k: nat)
    requires stay.Waiting? ==> x < stay.key
    ensures Rank(stay, keys - {x}, k) == Rank(stay, keys, k)
  {
    if stay.Waiting? {
      RoomTaken(keys, x, stay.key, k);
    }
  }

  // Taken from the least key, a task costs at least one less than before.
  lemma RankSelected(x: nat, keys: set<nat>, k: nat)
    requires x < k
    ensures Cost(Below(k, x + STRIDE)) < Rank(Waiting(x), keys, k)
  {
    StaysMonotone(Room(keys, x, k), Cost(Below(k, x + STRIDE)), Room(keys, x, k), Cost(Below(k, x + STRIDE)));
  }

  // ---- where the tasks are ----

  ghost function KeyOf(tree: map<nat, Task>, pid: nat): Option<nat> {
    if k :| k in tree && tree[k].pid == pid then Some(k) else None
  }

  ghost function Where(tree: map<nat, Task>, out: map<nat, Task>, pid: nat): Stay {
    if KeyOf(tree, pid).Some? then Waiting(KeyOf(tree, pid).value)
    else if pid in out then Away(out[pid].timebase + STRIDE)
    else Gone
  }

  lemma KeyOfFiled(tree: map<nat, Task>, y: nat, t: Task, pid: nat)
    requires DistinctPids(tree[y := t]) && y !in tree
    ensures KeyOf(tree[y := t], pid) == if pid == t.pid then Some(y) else KeyOf(tree, pid)
  {
    var tree' := tree[y := t];
    assert y in tree' && tree'[y] == t;
    assert forall k :: k in tree ==> k in tree' && tree'[k] == tree[k];
  }

  lemma KeyOfTaken(tree: map<nat, Task>, x: nat, pid: nat)
    requires DistinctPids(tree) && x in tree
    ensures KeyOf(tree - {x}, pid) == if pid == tree[x].pid then None else KeyOf(tree, pid)
    ensures KeyOf(tree, tree[x].pid) == Some(x)
  {
    var tree' := tree - {x};
    assert forall k :: k in tree' <==> k in tree && k != x;
    assert forall k :: k in tree' ==> tree'[k] == tree[k];
    if pid != tree[x].pid {
      if k :| k in tree && tree[k].pid == pid {
        assert k in tree' && tree'[k].pid == pid;
      }
    }
  }

  ghost function RankOf(s: Fleet, pid: nat, k: nat): nat {
    Rank(Where(s.tl.tree, s.out, pid), s.tl.tree.Keys, k)
  }

  // What the task waiting at k may have to wait for.
  ghost function Patience(s: Fleet, ids: set<nat>, k: nat): nat { SumOver(ids, p => RankOf(s, p, k)) }

  // ---- one step, seen from one task ----

  lemma TakenAt(s: Fleet, ts: nat) returns (x: nat)
    requires Wf(s) && s.tl.tree != map[]
    ensures x == LeastKey(s.tl.tree) && x in s.tl.tree && Select(s.tl, ts).1.Some?
    ensures var picked, s' := Select(s.tl, ts).1.value, Step(s, Dispatch, ts);
            && picked.pid == s.tl.tree[x].pid && s'.tl.tree.Keys == s.tl.tree.Keys - {x}
            && Where(s.tl.tree, s.out, picked.pid) == Waiting(x)
            && Where(s'.tl.tree, s'.out, picked.pid) == Away(x + STRIDE)
            && forall pid :: pid != picked.pid ==> Where(s'.tl.tree, s'.out, pid) == Where(s.tl.tree, s.out, pid)
  {
    x := LeastKey(s.tl.tree);
    var s' := Step(s, Dispatch, ts);
    assert s'.tl.tree == s.tl.tree - {x};
    forall pid ensures KeyOf(s.tl.tree - {x}, pid) == if pid == s.tl.tree[x].pid then None else KeyOf(s.tl.tree, pid) {
      KeyOfTaken(s.tl.tree, x, pid);
    }
    KeyOfTaken(s.tl.tree, x, 0);
  }

  // A waiting task other than the least waits further up.
  lemma OthersAbove(s: Fleet, pid: nat)
    requires Wf(s) && s.tl.tree != map[] && pid != s.tl.tree[LeastKey(s.tl.tree)].pid
    ensures var stay := Where(s.tl.tree, s.out, pid); stay.Waiting? ==> LeastKey(s.tl.tree) < stay.key
  {
  }

  lemma Selected(s: Fleet, pid: nat, k: nat, ts: nat)
    requires Wf(s) && s.tl.tree != map[]
    ensures var picked, s' := Select(s.tl, ts).1.value, Step(s, Dispatch, ts);
            && Select(s.tl, ts).1.Some?
            && RankOf(s', pid, k) <= RankOf(s, pid, k)
            && (pid == picked.pid && LeastKey(s.tl.tree) < k ==> RankOf(s', pid, k) < RankOf(s, pid, k))
  {
    var x := TakenAt(s, ts);
    if pid != s.tl.tree[x].pid {
      OthersAbove(s, pid);
      RankTaken(Where(s.tl.tree, s.out, pid), s.tl.tree.Keys, x, k);
    } else if x < k {
      RankSelected(x, s.tl.tree.Keys, k);
    }
  }

  lemma BackAt(s: Fleet, p: nat, remaining: nat, ts: nat) returns (y: nat)
    requires Wf(s) && Enabled(s, Return(p, remaining))
    ensures var s' := Step(s, Return(p, remaining), ts);
            && y !in s.tl.tree && s'.tl.tree.Keys == s.tl.tree.Keys + {y}
            && Where(s'.tl.tree, s'.out, p) == Waiting(y)
            && (forall pid :: pid != p ==> Where(s'.tl.tree, s'.out, pid) == Where(s.tl.tree, s.out, pid))
    ensures Where(s.tl.tree, s.out, p).Away? && y >= Where(s.tl.tree, s.out, p).next
  {
    y := ReturnKey(s, p, remaining, ts);
    var t := s.out[p].(timebase := y);
    NotQueued(s, p);
    forall j | j in s.tl.tree ensures s.tl.tree[j].pid != p {
    }
    FiledDistinct(s.tl.tree, y, t);
    forall pid ensures KeyOf(s.tl.tree[y := t], pid) == if pid == p then Some(y) else KeyOf(s.tl.tree, pid) {
      KeyOfFiled(s.tl.tree, y, t, pid);
    }
  }

  lemma CameBack(s: Fleet, p: nat, remaining: nat, pid: nat, k: nat, ts: nat)
    requires Wf(s) && Enabled(s, Return(p, remaining))
    ensures RankOf(Step(s, Return(p, remaining), ts), pid, k) <= RankOf(s, pid, k)
  {
    var y := BackAt(s, p, remaining, ts);
    var was := Where(s.tl.tree, s.out, pid);
    if pid == p {
      RankAtMost(y, s.tl.tree.Keys + {y}, k);
      CostMonotone(Below(k, y), Below(k, was.next));
    } else {
      RankFilled(was, s.tl.tree.Keys, y, k);
    }
  }

  // A task that is out is not in the tree.
  lemma NotQueued(s: Fleet, p: nat)
    requires Wf(s) && p in s.out
    ensures Where(s.tl.tree, s.out, p) == Away(s.out[p].timebase + STRIDE)
  {
  }

  lemma Ended(s: Fleet, p: nat, pid: nat, k: nat, ts: nat)
    requires Wf(s) && Enabled(s, Finish(p))
    ensures RankOf(Step(s, Finish(p), ts), pid, k) <= RankOf(s, pid, k)
  {
  }

  // An arrival is paid for by the task that is least when it comes.
  lemma CameIn(s: Fleet, p: nat, prio: Priority, k: nat, ts: nat) returns (y: nat, least: nat)
    requires Wf(s) && Enabled(s, Arrive(p, prio)) && k in s.tl.tree
    ensures var s' := Step(s, Arrive(p, prio), ts);
            && y !in s.tl.tree && s'.tl.tree.Keys == s.tl.tree.Keys + {y}
            && Where(s'.tl.tree, s'.out, p) == Waiting(y)
            && (forall pid :: pid != p ==> Where(s'.tl.tree, s'.out, pid) == Where(s.tl.tree, s.out, pid))
    ensures least in s.tl.tree && y >= least + STRIDE
    ensures Where(s.tl.tree, s.out, s.tl.tree[least].pid) == Waiting(least)
  {
    var t;
    y, t := ArriveKey(s, p, prio, ts);
    StepWf(s, Arrive(p, prio), ts);
    least := LeastKey(s.tl.tree);
    forall pid ensures KeyOf(s.tl.tree[y := t], pid) == if pid == p then Some(y) else KeyOf(s.tl.tree, pid) {
      KeyOfFiled(s.tl.tree, y, t, pid);
    }
    KeyOfTaken(s.tl.tree, least, p);
  }

  // ---- all tasks together ----

  // One joins at the expense of another.
  lemma SumOverPaid(ids: set<nat>, f: nat -> nat, g: nat -> nat, payer: nat, p: nat)
    requires p !in ids && (forall q :: q in ids ==> f(q) <= g(q))
    requires f(p) == 0 || (payer in ids && f(payer) + f(p) <= g(payer))
    ensures SumOver(ids + {p}, f) <= SumOver(ids, g)
  {
    SumOverPick(ids + {p}, f, p);
    assert ids + {p} - {p} == ids;
    if f(p) == 0 {
      SumOverMonotone(ids, f, g);
    } else {
      SumOverPick(ids, f, payer);
      SumOverPick(ids, g, payer);
      SumOverMonotone(ids - {payer}, f, g);
    }
  }

  // The ranks after an arrival: nobody's rises,
  lemma ArrivalLowers(s: Fleet, p: nat, prio: Priority, q: nat, k: nat, ts: nat)
    requires Wf(s) && Enabled(s, Arrive(p, prio)) && k in s.tl.tree && q != p
    ensures RankOf(Step(s, Arrive(p, prio), ts), q, k) <= RankOf(s, q, k)
  {
    var y, least := CameIn(s, p, prio, k, ts);
    RankFilled(Where(s.tl.tree, s.out, q), s.tl.tree.Keys, y, k);
  }

  // and the least task's falls by what the new one costs.
  lemma ArrivalPayer(s: Fleet, p: nat, prio: Priority, k: nat, ts: nat) returns (payer: nat)
    requires Wf(s) && Enabled(s, Arrive(p, prio)) && k in s.tl.tree
    ensures var s' := Step(s, Arrive(p, prio), ts);
            || RankOf(s', p, k) == 0
            || (payer in s.seen && payer != s.tl.tree[k].pid
                && RankOf(s', payer, k) + RankOf(s', p, k) <= RankOf(s, payer, k))
  {
    var y, least := CameIn(s, p, prio, k, ts);
    payer := s.tl.tree[least].pid;
    if y < k {
      OnePid(s, least, k);
      Pays(least, s.tl.tree.Keys, y, k);
    }
  }

  lemma Pays(least: nat, keys: set<nat>, y: nat, k: nat)
    requires y !in keys && least + STRIDE <= y < k
    ensures Rank(Waiting(least), keys + {y}, k) + Rank(Waiting(y), keys + {y}, k) <= Rank(Waiting(least), keys, k)
  {
    WaitingFilled(least, keys, y, k);
    RankAtMost(y, keys + {y}, k);
    CostMonotone(Below(k, y), Below(k, least + STRIDE));
  }

  lemma OnePid(s: Fleet, j: nat, k: nat)
    requires Wf(s) && j in s.tl.tree && k in s.tl.tree && j != k
    ensures s.tl.tree[j].pid != s.tl.tree[k].pid && s.tl.tree[j].pid in s.seen
  {
  }

  lemma ArrivalPaid(s: Fleet, p: nat, prio: Priority, ids: set<nat>, k: nat, ts: nat)
    requires Wf(s) && Enabled(s, Arrive(p, prio)) && k in s.tl.tree && ids == s.seen - {s.tl.tree[k].pid}
    ensures Patience(Step(s, Arrive(p, prio), ts), ids + {p}, k) <= Patience(s, ids, k)
  {
    var s' := Step(s, Arrive(p, prio), ts);
    var payer := ArrivalPayer(s, p, prio, k, ts);
    forall q | q in ids ensures RankOf(s', q, k) <= RankOf(s, q, k) {
      ArrivalLowers(s, p, prio, q, k, ts);
    }
    SumOverPaid(ids, q => RankOf(s', q, k), q => RankOf(s, q, k), payer, p);
  }

  lemma OthersPaid(s: Fleet, e: Event, ids: set<nat>, k: nat, ts: nat)
    requires Wf(s) && Enabled(s, e) && !e.Arrive? && k in s.tl.tree && ids == s.seen - {s.tl.tree[k].pid}
    requires e.Dispatch? ==> Select(s.tl, ts).1.value.pid != s.tl.tree[k].pid
    ensures Patience(Step(s, e, ts), ids, k) <= Patience(s, ids, k)
    ensures e.Dispatch? ==> Patience(Step(s, e, ts), ids, k) < Patience(s, ids, k)
  {
    var s' := Step(s, e, ts);
    forall q ensures RankOf(s', q, k) <= RankOf(s, q, k) {
      match e
      case Dispatch => Selected(s, q, k, ts);
      case Return(p, remaining) => CameBack(s, p, remaining, q, k, ts);
      case Finish(p) => Ended(s, p, q, k, ts);
    }
    SumOverMonotone(ids, q => RankOf(s', q, k), q => RankOf(s, q, k));
    if e.Dispatch? {
      var picked := Select(s.tl, ts).1.value;
      Selected(s, picked.pid, k, ts);
      SumOverDrops(ids, q => RankOf(s', q, k), q => RankOf(s, q, k), picked.pid);
    }
  }

  // One step keeps the waiter waiting, and pays for the selection it makes.
  lemma StepPaid(s: Fleet, es: seq<Event>, k: nat, ts: nat) returns (s': Fleet)
    requires Wf(s) && Legal(s, es, ts) && es != [] && k in s.tl.tree
    requires Spared(Picks(s, es, ts), s.tl.tree[k].pid)
    ensures Wf(s') && Legal(s', es[1..], ts) && k in s'.tl.tree && s'.tl.tree[k] == s.tl.tree[k]
    ensures Spared(Picks(s', es[1..], ts), s'.tl.tree[k].pid)
    ensures |Picks(s, es, ts)| == |Picks(s', es[1..], ts)| + (if es[0].Dispatch? then 1 else 0)
    ensures Patience(s', s'.seen - {s.tl.tree[k].pid}, k) + (if es[0].Dispatch? then 1 else 0)
         <= Patience(s, s.seen - {s.tl.tree[k].pid}, k)
  {
    s' := Step(s, es[0], ts);
    StepWf(s, es[0], ts);
    PicksCons(s, es, ts);
    if es[0].Dispatch? {
      SparedCons(Select(s.tl, ts).1.value, Picks(s', es[1..], ts), s.tl.tree[k].pid);
    }
    WaiterKept(s, es[0], k, ts);
    SeenPaid(s, es[0], k, ts);
  }

  lemma SeenPaid(s: Fleet, e: Event, k: nat, ts: nat)
    requires Wf(s) && Enabled(s, e) && k in s.tl.tree
    requires e.Dispatch? ==> Select(s.tl, ts).1.value.pid != s.tl.tree[k].pid
    ensures var s', w := Step(s, e, ts), s.tl.tree[k].pid;
            Patience(s', s'.seen - {w}, k) + (if e.Dispatch? then 1 else 0) <= Patience(s, s.seen - {w}, k)
  {
    var s' := Step(s, e, ts);
    var ids := s.seen - {s.tl.tree[k].pid};
    if e.Arrive? {
      assert s'.seen - {s.tl.tree[k].pid} == ids + {e.pid};
      ArrivalPaid(s, e.pid, e.prio, ids, k, ts);
    } else {
      assert s'.seen == s.seen;
      OthersPaid(s, e, ids, k, ts);
    }
  }

  /** While a task waits, the selections made, whatever arrives and however many tasks are
      out, are at most a number fixed when it began to wait. */
  lemma {:induction false} PatienceEnough(s: Fleet, es: seq<Event>, k: nat, ts: nat)
    requires Wf(s) && Legal(s, es, ts) && k in s.tl.tree
    requires Spared(Picks(s, es, ts), s.tl.tree[k].pid)
    ensures |Picks(s, es, ts)| <= Patience(s, s.seen - {s.tl.tree[k].pid}, k)
    decreases |es|
  {
    if es != [] {
      var s' := StepPaid(s, es, k, ts);
      PatienceEnough(s', es[1..], k, ts);
    }
  }

  /** No starvation, with any number of cores, hoists, suspensions and arrivals: a waiting
      task is among the next Patience + 1 selections. */
  lemma NobodyStarves(s: Fleet, es: seq<Event>, k: nat, ts: nat)
    requires Wf(s) && Legal(s, es, ts) && k in s.tl.tree
    requires |Picks(s, es, ts)| > Patience(s, s.seen - {s.tl.tree[k].pid}, k)
    ensures exists i :: 0 <= i <= Patience(s, s.seen - {s.tl.tree[k].pid}, k) < |Picks(s, es, ts)|
                        && Picks(s, es, ts)[i].pid == s.tl.tree[k].pid
  {
    var ps, n := Picks(s, es, ts), Patience(s, s.seen - {s.tl.tree[k].pid}, k) + 1;
    if forall i :: 0 <= i < n ==> ps[i].pid != s.tl.tree[k].pid {
      var m := PrefixWithPicks(s, es, n, ts);
      PicksPrefix(s, es, m, ts);
      PatienceEnough(s, es[..m], k, ts);
      assert false;
    }
  }
}
