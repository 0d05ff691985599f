/** The round-robin scheduler over the segmented queue, and its rotation law. */
module RoundRobin {
  import opened Scheduling
  import Fifo

  class SchedulerRoundRobin {
    const timeslice: nat
    const queue: Fifo.Queue

    ghost predicate Valid()
      reads queue, queue.spine, queue.freed, queue.Cells()
    {
      queue.Valid()
    }

    constructor (timeslice: nat)
      ensures Valid() && queue.contents == [] && fresh(queue)
    {
      this.timeslice := timeslice;
      queue := new Fifo.Queue();
    }

    method Schedule(pid: nat, prio: Priority)
      requires Valid()
      modifies queue, queue.Segments(), queue.Cells()
      ensures Valid() && queue.contents == old(queue.contents) + [pid]
    {
      queue.Enqueue(pid);
    }

    method Select<D>(job: SchedulerJob<D>)
      requires Valid()
      modifies queue, queue.Segments(), job`pid, job`runtime
      ensures Valid()
      ensures old(queue.contents) == [] ==> job.pid == 0 && job.runtime == 0 && queue.contents == []
      ensures old(queue.contents) != [] ==>
                && job.pid == old(queue.contents)[0] && job.runtime == timeslice
                && queue.contents == old(queue.contents)[1..]
      ensures queue.Segments() <= old(queue.Segments()) && queue.Cells() <= old(queue.Cells())
    {
      var pid, runtime := 0, 0;
      if queue.Length() != 0 {
        pid := queue.Dequeue();
        runtime := timeslice;
      }
      // The job record is no part of the queue.
      assert forall s :: s in queue.spine ==> s as object != job;
      assert forall s :: s in queue.Cells() ==> s as object != job;
      assert forall s :: s in queue.freed ==> s as object != job;
      job.pid, job.runtime := pid, runtime;
    }

    method Reschedule<D>(job: SchedulerJob<D>)
      requires Valid()
      modifies queue, queue.Segments(), queue.Cells()
      ensures Valid() && queue.contents == old(queue.contents) + [job.pid]
      ensures fresh(queue.Segments() - old(queue.Segments())) && fresh(queue.Cells() - old(queue.Cells()))
    {
      queue.Enqueue(job.pid);
    }

    // The job at the front runs and is queued again.
    method OneTurn<D>(job: SchedulerJob<D>) returns (pid: nat)
      requires Valid() && queue.contents != []
      modifies queue, queue.Segments(), queue.Cells(), job`pid, job`runtime
      ensures Valid() && queue.contents == Turn(old(queue.contents)) && pid == old(queue.contents)[0]
      ensures fresh(queue.Segments() - old(queue.Segments())) && fresh(queue.Cells() - old(queue.Cells()))
    {
      Select(job);
      pid := job.pid;
      Reschedule(job);
    }

    /** k selections, each job queued again before the next: the i-th is the job at place
        i mod n of the queue as it was, and the queue ends rotated by k. */
    method TakeTurns<D>(k: nat, job: SchedulerJob<D>) returns (picks: seq<nat>)
      requires Valid() && queue.contents != []
      modifies queue, queue.Segments(), queue.Cells(), job`pid, job`runtime
      ensures Valid() && |picks| == k
      ensures forall i :: 0 <= i < k ==> picks[i] == old(queue.contents)[i % |old(queue.contents)|]
      ensures var n := |old(queue.contents)|;
              queue.contents == old(queue.contents)[k % n..] + old(queue.contents)[..k % n]
    {
      ghost var q := queue.contents;
      picks := [];
      var taken := 0;
      while taken < k
        invariant Valid() && taken <= k && queue.contents == Turns(q, taken) && picks == Picks(q, taken)
        invariant fresh(queue.Segments() - old(queue.Segments())) && fresh(queue.Cells() - old(queue.Cells()))
      {
        var pid := OneTurn(job);
        picks, taken := picks + [pid], taken + 1;
      }
      PicksRotate(q, k);
    }
  }

  // One turn: the job at the front runs and is queued again.
  ghost function Turn(q: seq<nat>): seq<nat>
    requires q != []
  {
    q[1..] + [q[0]]
  }

  ghost function Turns(q: seq<nat>, k: nat): (r: seq<nat>)
    requires q != []
    ensures |r| == |q|
  {
    if k == 0 then q else Turn(Turns(q, k - 1))
  }

  // What k selections hand out, each job queued again before the next.
  ghost function Picks(q: seq<nat>, k: nat): (p: seq<nat>)
    requires q != []
    ensures |p| == k
  {
    if k == 0 then [] else Picks(q, k - 1) + [Turns(q, k - 1)[0]]
  }

  lemma ModNext(k: nat, n: nat)
    requires n > 0
    ensures (k + 1) % n == if k % n + 1 == n then 0 else k % n + 1
  {
    var q, r := k / n, k % n;
    assert k + 1 == n * q + r + 1;
    if r + 1 == n {
      assert k + 1 == n * (q + 1) + 0;
      DivModUnique(k + 1, n, q + 1, 0);
    } else {
      DivModUnique(k + 1, n, q, r + 1);
    }
  }

  lemma DivModUnique(x: nat, n: nat, q: nat, r: nat)
    requires n > 0 && r < n && x == n * q + r
    ensures x % n == r
  {
    var q', r' := x / n, x % n;
    assert n * (q - q') == r' - r;
    SmallMultiple(n, q - q');
  }

  lemma SmallMultiple(n: nat, d: int)
    requires -(n as int) < n * d < n
    ensures d == 0
  {
  }

  // One turn of a queue already rotated by m.
  lemma TurnOf(q: seq<nat>, m: nat)
    requires m < |q|
    ensures (q[m..] + q[..m])[0] == q[m]
    ensures var next := if m + 1 == |q| then 0 else m + 1;
            Turn(q[m..] + q[..m]) == q[next..] + q[..next]
  {
    var before := q[m..] + q[..m];
    assert before[1..] == q[m + 1..] + q[..m];
    assert q[..m] + [q[m]] == q[..m + 1];
    assert Turn(before) == q[m + 1..] + q[..m + 1];
    if m + 1 == |q| {
      assert q[m + 1..] == [] && q[..m + 1] == q;
    }
  }

  /** With n jobs, each queued again before the next selection, the k-th selection is the
      job at place k mod n, and the queue is the original one rotated. */
  lemma {:induction false} RotationLaw(q: seq<nat>, k: nat)
    requires q != []
    ensures Turns(q, k) == q[k % |q|..] + q[..k % |q|]
    ensures Turns(q, k)[0] == q[k % |q|]
  {
    if k > 0 {
      RotationLaw(q, k - 1);
      ModNext(k - 1, |q|);
      TurnOf(q, (k - 1) % |q|);
    }
  }

  lemma {:induction false} PicksRotate(q: seq<nat>, k: nat)
    requires q != []
    ensures forall i :: 0 <= i < k ==> Picks(q, k)[i] == q[i % |q|]
    ensures Turns(q, k) == q[k % |q|..] + q[..k % |q|]
  {
    RotationLaw(q, k);
    if k > 0 {
      PicksRotate(q, k - 1);
      RotationLaw(q, k - 1);
    }
  }
}
