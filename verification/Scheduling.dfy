/** What every scheduler shares: priorities, the job record handed to the dispatch
    loop, and a few facts about sums and finite sets. */
module Scheduling {

  datatype Priority = Titanic | VeryHigh | High | Normal | Low | VeryLow

  // The number of each priority, the most urgent first.
  function Rank(prio: Priority): (n: nat) {
    match prio
    case Titanic => 0
    case VeryHigh => 1
    case High => 2
    case Normal => 3
    case Low => 4
    case VeryLow => 5
  }

  datatype Option<+T> = None | Some(value: T)

  /** The record a core hands to its scheduler. `data` belongs to the scheduler. */
  class SchedulerJob<D> {
    var pid: nat
    var runtime: nat
    var data: D

    constructor (data: D)
      ensures pid == 0 && runtime == 0 && this.data == data
    {
      this.pid := 0;
      this.runtime := 0;
      this.data := data;
    }
  }

  function Min(a: nat, b: nat): nat { if a < b then a else b }

  function Max(a: nat, b: nat): nat { if a < b then b else a }

  // Quotient rounded up.
  function CeilDiv(a: nat, b: nat): nat
    requires b > 0
  {
    (a + b - 1) / b
  }

  ghost function Sum(s: seq<nat>): nat {
    if s == [] then 0 else s[0] + Sum(s[1..])
  }

  lemma {:induction false} SumUpdate(s: seq<nat>, i: nat, v: nat)
    requires i < |s|
    ensures Sum(s[i := v]) == Sum(s) - s[i] + v
    ensures s[i] <= Sum(s)
  {
    if i == 0 {
      assert s[i := v][1..] == s[1..];
    } else {
      assert s[i := v][1..] == s[1..][i - 1 := v];
      SumUpdate(s[1..], i - 1, v);
    }
  }

  lemma {:induction false} SumConstant(s: seq<nat>, v: nat)
    requires forall i :: 0 <= i < |s| ==> s[i] == v
    ensures Sum(s) == |s| * v
  {
    if s != [] {
      SumConstant(s[1..], v);
    }
  }

  lemma {:induction false} SumZero(s: seq<nat>)
    requires Sum(s) == 0
    ensures forall i :: 0 <= i < |s| ==> s[i] == 0
  {
    if s != [] {
      SumZero(s[1..]);
      assert forall i :: 0 < i < |s| ==> s[i] == s[1..][i - 1];
    }
  }

  // Total of a measure over a finite set of pids.
  ghost function SumOver(ids: set<nat>, f: nat -> nat): nat {
    if ids == {} then 0 else var p :| p in ids; f(p) + SumOver(ids - {p}, f)
  }

  lemma {:induction false} SumOverPick(ids: set<nat>, f: nat -> nat, p: nat)
    requires p in ids
    ensures SumOver(ids, f) == f(p) + SumOver(ids - {p}, f)
  {
    var q :| q in ids && SumOver(ids, f) == f(q) + SumOver(ids - {q}, f);
    if q != p {
      SumOverPick(ids - {q}, f, p);
      SumOverPick(ids - {p}, f, q);
      assert ids - {q} - {p} == ids - {p} - {q};
    }
  }

  lemma {:induction false} SumOverMonotone(ids: set<nat>, f: nat -> nat, g: nat -> nat)
    requires forall p :: p in ids ==> f(p) <= g(p)
    ensures SumOver(ids, f) <= SumOver(ids, g)
  {
    if ids != {} {
      var p :| p in ids;
      SumOverPick(ids, f, p);
      SumOverPick(ids, g, p);
      SumOverMonotone(ids - {p}, f, g);
    }
  }

  // A fall at one pid is a fall of the total.
  lemma SumOverDrops(ids: set<nat>, f: nat -> nat, g: nat -> nat, p: nat)
    requires p in ids && f(p) < g(p)
    requires forall q :: q in ids ==> f(q) <= g(q)
    ensures SumOver(ids, f) < SumOver(ids, g)
  {
    SumOverPick(ids, f, p);
    SumOverPick(ids, g, p);
    SumOverMonotone(ids - {p}, f, g);
  }
}
