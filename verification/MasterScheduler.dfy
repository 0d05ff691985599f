/** The master scheduler as the program keeps it: one lock, one scheduler, one job count
    and one donated job per core, in arrays. */
module MasterScheduler {
  import opened Scheduling
  import opened Schedulers
  import opened Balancer
  import opened MasterSystem

  const ACCOUNTING_PERIOD: nat := 5000000

  class Master {
    const nprocs: nat
    const secondary: Core  // what a core without a scheduler gets
    const locks: array<bool>
    const schedulers: array<Option<Core>>
    const singleJobs: array<nat>
    const jobcounts: array<nat>
    var lastMin: nat
    var lastMinCd: nat
    var lastAccounting: nat
    ghost var system: System

    ghost predicate Shaped() {
      && 0 < nprocs <= NONE  // an unsigned long
      && locks.Length == schedulers.Length == singleJobs.Length == jobcounts.Length == nprocs
      && singleJobs != jobcounts
    }

    // The arrays hold the state `system`; a donated core's count is ~0UL.
    ghost predicate Holds()
      reads this, schedulers, singleJobs, jobcounts
    {
      && Shaped() && schedulers[..] == system.cores
      && |system.counts| == nprocs && jobcounts[..] == Shown(system.counts, singleJobs[..])
    }

    ghost function LoadView(): Load
      reads this, singleJobs
    {
      Load(system, singleJobs[..], lastMin, lastMinCd)
    }

    ghost predicate Unlocked()
      reads locks
    {
      forall c :: 0 <= c < locks.Length ==> !locks[c]
    }

    // All but the locks and the remembered core.
    ghost predicate Kept()
      reads this, schedulers, singleJobs, jobcounts
    {
      Holds() && LoadOk(Load(system, singleJobs[..], 0, 0)) && Fresh(secondary)
    }

    ghost predicate Remembers()
      requires schedulers.Length == nprocs
      reads this, schedulers
    {
      lastMinCd > 0 ==> lastMin < nprocs && schedulers[lastMin].Some?
    }

    ghost predicate Valid()
      reads this, locks, schedulers, singleJobs, jobcounts
    {
      Kept() && Remembers() && Unlocked()
    }

    constructor (procs: nat, prim: Core, sec: Core)
      requires 0 < procs <= NONE && Fresh(prim) && Fresh(sec)
      ensures Valid() && nprocs == procs && secondary == sec && lastMinCd == 0
      ensures system == Start(prim, procs) && singleJobs[..] == Zeros(procs)
    {
      nprocs, secondary := procs, sec;
      locks := new bool[procs](_ => false);
      schedulers := new Option<Core>[procs](c => if c == 0 then Some(prim) else None);
      singleJobs := new nat[procs](_ => 0);
      jobcounts := new nat[procs](_ => 0);
      lastMin, lastMinCd, lastAccounting := 0, 0, 0;
      system := Start(prim, procs);
      new;
      StartLoad(prim, procs);
      assert singleJobs[..] == Zeros(procs) && jobcounts[..] == Zeros(procs);
      assert schedulers[..] == Start(prim, procs).cores;
    }

    // lock_lock waits for ever on a lock its own caller holds.
    method LockLock(c: nat)
      requires c < locks.Length && !locks[c]
      modifies locks
      ensures locks[..] == old(locks[..])[c := true]
    {
      locks[c] := true;
    }

    method LockUnlock(c: nat)
      requires c < locks.Length
      modifies locks
      ensures locks[..] == old(locks[..])[c := false]
    {
      locks[c] := false;
    }

    /** The first core with the fewest jobs. The answer is given twice more without
        looking. */
    method SelectCoreLeastLoad() returns (least: nat)
      requires Shaped() && exists c :: 0 <= c < nprocs && jobcounts[c] < NONE
      requires forall c :: 0 <= c < nprocs ==> jobcounts[c] <= NONE
      modifies this`lastMin, this`lastMinCd
      ensures lastMin == least
      ensures if old(lastMinCd) > 0 then least == old(lastMin) && lastMinCd == old(lastMinCd) - 1
              else IsFirstLeast(jobcounts[..], least) && lastMinCd == 2
    {
      if lastMinCd > 0 {
        lastMinCd := lastMinCd - 1;
        return lastMin;
      }
      var min: nat, minVal: nat := NONE, NONE;
      for i := 0 to nprocs
        invariant forall j :: 0 <= j < i ==> minVal <= jobcounts[j]
        invariant minVal <= NONE
        invariant minVal < NONE ==> min < i && jobcounts[min] == minVal
        invariant minVal < NONE ==> forall j :: 0 <= j < min ==> minVal < jobcounts[j]
      {
        var jc := jobcounts[i];
        if jc < minVal {
          minVal, min := jc, i;
        }
      }
      assert minVal != NONE;
      lastMinCd, lastMin := 2, min;
      return min;
    }

    /** The first core with the most jobs, donated cores apart; core 0 when none has any. */
    method SelectCoreMostLoad() returns (most: nat)
      requires Shaped()
      ensures IsFirstMost(jobcounts[..], singleJobs[..], most)
    {
      var max: nat, maxVal: nat := NONE, 0;
      for i := 0 to nprocs
        invariant forall j :: 0 <= j < i && singleJobs[j] == 0 ==> jobcounts[j] <= maxVal
        invariant maxVal > 0 ==> max < i && singleJobs[max] == 0 && jobcounts[max] == maxVal
        invariant maxVal > 0 ==> forall j :: 0 <= j < max && singleJobs[j] == 0 ==> jobcounts[j] < maxVal
      {
        var jc := jobcounts[i];
        if singleJobs[i] == 0 && jc > maxVal {
          maxVal, max := jc, i;
        }
      }
      if maxVal == 0 {
        return 0;
      }
      return max;
    }

    /** The core's scheduler, made and stored on first use. */
    method SchedulerForCore(c: nat) returns (core: Core)
      requires Kept() && c < nprocs && locks[c] && singleJobs[c] == 0
      modifies schedulers, this`system
      ensures Kept() && core == CoreFor(old(system), c, secondary) && schedulers[c] == Some(core)
      ensures system == At(old(system), c, core, old(system).counts[c])
    {
      CoreForKeeps(system, c, secondary);
      LoadAt(Load(system, singleJobs[..], 0, 0), c, CoreFor(system, c, secondary), system.counts[c]);
      core := secondary;
      if schedulers[c].None? {
        schedulers[c] := Some(secondary);
      } else {
        core := schedulers[c].value;
      }
      system := At(system, c, core, system.counts[c]);
    }

    /** The first core but 0 that has no scheduler yet. */
    method SelectCoreUnused() returns (unused: nat)
      requires Shaped()
      ensures if exists c :: IsFirstUnused(schedulers[..], c) then IsFirstUnused(schedulers[..], unused)
              else unused == NONE
    {
      for i := 1 to nprocs
        invariant forall c :: 1 <= c < i ==> schedulers[..][c].Some?
      {
        if schedulers[i].None? {
          assert IsFirstUnused(schedulers[..], i);
          return i;
        }
      }
      return NONE;
    }

    // The scheduler calls of a hoist; `moved` unless the source was idle.
    method HoistCores(ghost p: Pair, from: Core, to: Core) returns (from': Core, to': Core, moved: bool)
      requires PairWf(p) && p.cs > p.ct && from == p.src && to == p.dst
      ensures Hoist(p) == Pair(from', to', if moved then p.cs - 1 else p.cs, if moved then p.ct + 1 else p.ct)
    {
      HoistLegal(p);
      var job;
      from', job := Schedulers.Select(from).0, Schedulers.Select(from).1;
      to', moved := to, job.pid != 0;
      if moved {
        to' := Schedulers.Schedule(to, job.pid, Normal);
        from' := Forget(Schedulers.Unschedule(from', job.pid), job.pid);
      }
    }

    method JobHoist(src: nat, dst: nat)
      requires Holds() && locks.Length == nprocs && src < nprocs && dst < nprocs && locks[src] && locks[dst]
      requires src < nprocs && dst < nprocs && src != dst && singleJobs[src] == singleJobs[dst] == 0
      requires schedulers[src].Some? && schedulers[dst].Some?
      requires PairWf(PairAt(system, src, dst)) && jobcounts[src] > jobcounts[dst]
      modifies schedulers, jobcounts, this`system
      ensures Holds() && system == WithPair(old(system), src, dst, Hoist(PairAt(old(system), src, dst)))
    {
      ghost var hoisted := Hoist(PairAt(system, src, dst));
      var from, to, moved := HoistCores(PairAt(system, src, dst), schedulers[src].value, schedulers[dst].value);
      ShownPair(system, singleJobs[..], src, dst, hoisted);
      schedulers[src] := Some(from);
      if moved {
        schedulers[dst] := Some(to);
        jobcounts[src] := jobcounts[src] - 1;
        jobcounts[dst] := jobcounts[dst] + 1;
      }
      assert schedulers[..] == old(schedulers[..])[src := Some(from)][dst := Some(to)];
      assert jobcounts[..] == old(jobcounts[..])[src := hoisted.cs][dst := hoisted.ct];
      system := WithPair(system, src, dst, hoisted);
    }

    /** Ends, and leaves the two counts level or the target one ahead; every yarn is kept.
        The locks must be two, and enough jobs queued: otherwise it never returns. */
    method Rebalance(src: nat, target: nat) returns (ghost run: seq<Pair>)
      requires Kept() && Unlocked() && Balanceable(system, src, target) && singleJobs[src] == singleJobs[target] == 0
      modifies locks, schedulers, jobcounts, this`system
      ensures Kept() && Unlocked() && Levelled(old(system), src, target, system) && SameYarns(old(system), system)
      ensures Along(old(system), src, target, run, system)
      ensures old(jobcounts[src] > jobcounts[target]) ==>
                |run| == Needed(old(jobcounts[src]), old(jobcounts[target])) + 1
    {
      LockLock(src);
      LockLock(target);
      run := Balance(src, target);
      LockUnlock(src);
      LockUnlock(target);
    }

    method Balance(src: nat, target: nat) returns (ghost run: seq<Pair>)
      requires Kept() && Balanceable(system, src, target) && singleJobs[src] == singleJobs[target] == 0
      requires locks[src] && locks[target]
      modifies schedulers, jobcounts, this`system
      ensures Kept() && Levelled(old(system), src, target, system) && SameYarns(old(system), system)
      ensures Along(old(system), src, target, run, system)
      ensures old(system).counts[src] > old(system).counts[target] ==>
                |run| == Needed(old(system).counts[src], old(system).counts[target]) + 1
    {
      ghost var s := system;
      run := AlongStart(s, src, target);
      AlongGuard(s, src, target, run, system);
      while jobcounts[src] > jobcounts[target]
        invariant Holds() && Along(s, src, target, run, system)
        decreases Needed(s.counts[src], s.counts[target]) + 1 - |run|
      {
        AlongGuard(s, src, target, run, system);
        ghost var now := system;
        JobHoist(src, target);
        run := AlongPass(s, src, target, run, now);
      }
      AlongEnd(s, src, target, run, system);
      LevelledBelow(s, src, target, system, NONE);
    }

    // Core c's scheduler and count after an operation begun in state s; `was` is the
    // scheduler it found or made.
    method Store(ghost s: System, c: nat, ghost was: Core, core: Core, count: nat)
      requires Kept() && c < nprocs && count < NONE && singleJobs[c] == 0
      requires |s.cores| == |s.counts| == nprocs && SystemWf(At(s, c, core, count))
      requires system == At(s, c, was, s.counts[c])
      modifies schedulers, jobcounts, this`system
      ensures Kept() && system == At(s, c, core, count)
    {
      LoadAt(Load(system, singleJobs[..], 0, 0), c, core, count);
      schedulers[c] := Some(core);
      jobcounts[c] := count;
      assert schedulers[..] == old(schedulers[..])[c := Some(core)];
      assert jobcounts[..] == old(jobcounts[..])[c := count];
      assert At(s, c, core, count) == At(system, c, core, count);
      system := At(s, c, core, count);
    }

    // No core loses its scheduler.
    static ghost predicate Alike(cores: seq<Option<Core>>, cores': seq<Option<Core>>) {
      |cores'| == |cores| && forall d :: 0 <= d < |cores| && cores[d].Some? ==> cores'[d].Some?
    }

    // The operations on one core, its lock held.

    method ScheduleLocked(c: nat, pid: nat, prio: Priority)
      requires Kept() && c < nprocs && locks[c] && singleJobs[c] == 0 && jobcounts[c] + 1 < NONE && Unseen(system, pid)
      modifies schedulers, jobcounts, this`system
      ensures Kept() && ScheduledAt(old(system), c, secondary, pid, prio, system) && Gains(old(system), system, pid)
      ensures Alike(old(schedulers[..]), schedulers[..]) && schedulers[c].Some?
    {
      ghost var s := system;
      var core := SchedulerForCore(c);
      var core' := CallSchedule(s, c, secondary, core, pid, prio);
      Store(s, c, core, core', jobcounts[c] + 1);
    }

    method SelectLocked(c: nat) returns (job: Grant)
      requires Kept() && c < nprocs && locks[c] && singleJobs[c] == 0 && Resting(schedulers[c])
      modifies schedulers, jobcounts, this`system
      ensures Kept() && SelectedAt(old(system), c, secondary, job, system) && Keeps(old(system), system)
      ensures Alike(old(schedulers[..]), schedulers[..])
      ensures job.pid != 0 ==> schedulers[c].Some? && job.pid in Out(schedulers[c].value)
    {
      ghost var s := system;
      var core := SchedulerForCore(c);
      var core';
      core', job := CallSelect(s, c, secondary, core);
      Store(s, c, core, core', jobcounts[c]);
    }

    method UnscheduleLocked(c: nat, pid: nat)
      requires Kept() && c < nprocs && locks[c] && singleJobs[c] == 0
      requires schedulers[c].Some? && pid in Out(schedulers[c].value)
      modifies schedulers, jobcounts, this`system
      ensures Kept() && UnscheduledAt(old(system), c, pid, system) && Loses(old(system), system, pid)
      ensures Alike(old(schedulers[..]), schedulers[..]) && schedulers[c].Some?
    {
      ghost var s := system;
      var core := SchedulerForCore(c);
      var core' := CallUnschedule(s, c, core, pid);
      Store(s, c, core, core', jobcounts[c] - 1);
    }

    method RescheduleLocked(c: nat, pid: nat, remaining: nat)
      requires Kept() && c < nprocs && locks[c] && singleJobs[c] == 0
      requires schedulers[c].Some? && pid in Out(schedulers[c].value)
      requires remaining <= Granted(schedulers[c].value, pid)
      modifies schedulers, jobcounts, this`system
      ensures Kept() && RescheduledAt(old(system), c, pid, remaining, system) && Keeps(old(system), system)
      ensures Alike(old(schedulers[..]), schedulers[..]) && schedulers[c].Some?
    {
      ghost var s := system;
      var core := SchedulerForCore(c);
      var core' := CallReschedule(s, c, core, pid, remaining);
      Store(s, c, core, core', jobcounts[c]);
    }

    /** A titanic yarn is given the first core without a scheduler, in place of the one that
        has it, if any. */
    method Donate(target: nat, pid: nat)
      requires Valid() && IsFirstUnused(schedulers[..], target) && pid > 0
      modifies singleJobs, jobcounts
      ensures Valid() && singleJobs[..] == old(singleJobs[..])[target := pid]
      ensures Alone(singleJobs[..]) + One(old(singleJobs[target])) == Alone(old(singleJobs[..])) + One(pid)
    {
      DonatedNext(system, singleJobs[..], target, pid);
      AloneUpdate(singleJobs[..], target, pid);
      singleJobs[target] := pid;
      jobcounts[target] := NONE;
      assert singleJobs[..] == old(singleJobs[..])[target := pid];
      assert jobcounts[..] == old(jobcounts[..])[target := NONE];
    }

    /** Any other yarn goes to the least loaded core, as last found. */
    method Share(pid: nat, prio: Priority) returns (target: nat)
      requires Valid() && Unseen(system, pid)
      requires forall c :: 0 <= c < nprocs ==> system.counts[c] + 1 < NONE
      modifies this`lastMin, this`lastMinCd, locks, schedulers, jobcounts, this`system
      ensures Valid() && target < nprocs && lastMin == target
      ensures if old(lastMinCd) > 0 then target == old(lastMin)
              else IsFirstLeast(Shown(old(system).counts, singleJobs[..]), target)
      ensures ScheduledAt(old(system), target, secondary, pid, prio, system) && Gains(old(system), system, pid)
    {
      assert jobcounts[0] < NONE;
      target := SelectCoreLeastLoad();
      LockLock(target);
      ScheduleLocked(target, pid, prio);
      LockUnlock(target);
    }

    /** A titanic yarn is given an unused core; any other, or a titanic one when every core
        is in use, goes to the least loaded core, as last found. */
    method Schedule(pid: nat, prio: Priority) returns (target: nat)
      requires Valid() && pid > 0 && Unseen(system, pid)
      requires forall c :: 0 <= c < nprocs ==> system.counts[c] + 1 < NONE
      modifies this`lastMin, this`lastMinCd, locks, schedulers, singleJobs, jobcounts, this`system
      ensures Valid() && target < nprocs
      ensures prio == Titanic && (exists c :: IsFirstUnused(old(schedulers[..]), c)) ==>
                && IsFirstUnused(old(schedulers[..]), target) && system == old(system)
                && singleJobs[..] == old(singleJobs[..])[target := pid]
                && Alone(singleJobs[..]) + One(old(singleJobs[..])[target]) == Alone(old(singleJobs[..])) + One(pid)
      ensures !(prio == Titanic && exists c :: IsFirstUnused(old(schedulers[..]), c)) ==>
                && singleJobs[..] == old(singleJobs[..]) && lastMin == target
                && (if old(lastMinCd) > 0 then target == old(lastMin)
                    else IsFirstLeast(Shown(old(system).counts, singleJobs[..]), target))
                && ScheduledAt(old(system), target, secondary, pid, prio, system) && Gains(old(system), system, pid)
    {
      if prio == Titanic {
        target := SelectCoreUnused();
        if target != NONE {
          Donate(target, pid);
          return;
        }
      }
      target := Share(pid, prio);
    }

    /** The core's own scheduler chooses; no count changes. */
    method DoSelect(c: nat) returns (job: Grant)
      requires Valid() && c < nprocs && singleJobs[c] == 0 && Resting(schedulers[c])
      modifies locks, schedulers, jobcounts, this`system
      ensures Valid() && SelectedAt(old(system), c, secondary, job, system) && Keeps(old(system), system)
      ensures job.pid != 0 ==> schedulers[c].Some? && job.pid in Out(schedulers[c].value)
    {
      LockLock(c);
      job := SelectLocked(c);
      LockUnlock(c);
    }

    /** A finished yarn leaves the system, and its core's count; on a donated core, whoever
        has the core by now leaves it. */
    method Unschedule(c: nat, pid: nat)
      requires Valid() && c < nprocs
      requires singleJobs[c] == 0 ==> schedulers[c].Some? && pid in Out(schedulers[c].value)
      modifies locks, schedulers, singleJobs, jobcounts, this`system
      ensures Valid()
      ensures old(singleJobs[c]) == 0 ==>
                && UnscheduledAt(old(system), c, pid, system) && Loses(old(system), system, pid)
                && singleJobs[..] == old(singleJobs[..])
      ensures old(singleJobs[c]) != 0 ==>
                && system == old(system) && singleJobs[..] == old(singleJobs[..])[c := 0]
                && Alone(old(singleJobs[..])) == Alone(singleJobs[..]) + One(old(singleJobs[c]))
    {
      if singleJobs[c] != 0 {
        Release(c);
      } else {
        LockLock(c);
        UnscheduleLocked(c, pid);
        LockUnlock(c);
      }
    }

    method Release(c: nat)
      requires Valid() && c < nprocs && singleJobs[c] != 0
      modifies singleJobs, jobcounts
      ensures Valid() && singleJobs[..] == old(singleJobs[..])[c := 0]
      ensures Alone(old(singleJobs[..])) == Alone(singleJobs[..]) + One(old(singleJobs[c]))
    {
      DonatedBack(system, singleJobs[..], c);
      AloneUpdate(singleJobs[..], c, 0);
      singleJobs[c] := 0;
      jobcounts[c] := 0;
      assert singleJobs[..] == old(singleJobs[..])[c := 0];
      assert jobcounts[..] == old(jobcounts[..])[c := 0];
    }

    method Reschedule(c: nat, pid: nat, remaining: nat)
      requires Valid() && c < nprocs
      requires singleJobs[c] == 0 ==>
                 && schedulers[c].Some? && pid in Out(schedulers[c].value)
                 && remaining <= Granted(schedulers[c].value, pid)
      modifies locks, schedulers, jobcounts, this`system
      ensures Valid()
      ensures singleJobs[c] == 0 ==>
                RescheduledAt(old(system), c, pid, remaining, system) && Keeps(old(system), system)
      ensures singleJobs[c] != 0 ==> system == old(system)
    {
      if singleJobs[c] == 0 {
        LockLock(c);
        RescheduleLocked(c, pid, remaining);
        LockUnlock(c);
      }
    }

    /** One shift of the accounting. */
    method AccountingShift() returns (ghost most: nat, ghost least: nat)
      requires Valid() && ShiftEnds(LoadView())
      modifies this`lastMin, this`lastMinCd, locks, schedulers, jobcounts, this`system
      ensures Valid() && most < nprocs && least < nprocs
      ensures Answers(old(LoadView()), most, least) && Shifted(old(LoadView()), most, least, LoadView())
    {
      assert jobcounts[0] < NONE;
      var src := SelectCoreMostLoad();
      var dst := SelectCoreLeastLoad();
      most, least := src, dst;
      assert Answers(old(LoadView()), most, least);
      AnswersUndonated(old(LoadView()), most, least);
      ghost var run := Rebalance(src, dst);
      ShiftedOk(old(LoadView()), most, least, LoadView());
    }

    // ACCOUNTING_SHIFTS is two.
    method Account(ghost c: nat) returns (ghost round: Round)
      requires Valid() && RoundEnds(LoadView()) && c < nprocs && Resting(schedulers[c])
      modifies this`lastMin, this`lastMinCd, locks, schedulers, jobcounts, this`system
      ensures Valid() && SameYarns(old(system), system) && Resting(schedulers[c])
      ensures IsRound(old(LoadView()), round, LoadView())
    {
      ghost var s := system;
      ghost var most, least := AccountingShift();
      ghost var t := LoadView();
      ghost var most', least' := AccountingShift();
      round := Round(most, least, t, most', least');
      SameYarnsThrough(s, t.sys, system);
      StillResting(s, system, c);
    }

    // The accounting is due.
    predicate Due(newTime: nat)
      reads this
    {
      nprocs > 1 && lastAccounting + ACCOUNTING_PERIOD < newTime
    }

    method AccountIfDue(ghost c: nat, newTime: nat) returns (ghost round: Round)
      requires Valid() && c < nprocs && Resting(schedulers[c]) && (Due(newTime) ==> RoundEnds(LoadView()))
      modifies this, locks, schedulers, jobcounts
      ensures Valid() && SameYarns(old(system), system) && Resting(schedulers[c])
      ensures if old(Due(newTime)) then lastAccounting == newTime && IsRound(old(LoadView()), round, LoadView())
              else lastAccounting == old(lastAccounting) && LoadView() == old(LoadView())
    {
      SameYarnsNow(system);
      round := Round(0, 0, LoadView(), 0, 0);
      if nprocs > 1 {
        if lastAccounting + ACCOUNTING_PERIOD < newTime {
          lastAccounting := newTime;
          round := Account(c);
        }
      }
    }

    /** Select, with the accounting when it is due; a round that would not end is ruled
        out beforehand. A donated core gets its one yarn, to run for ever. `after` is the
        state the core is asked in: a round later, or as it was. */
    method Select(c: nat, newTime: nat) returns (job: Grant, ghost round: Round, ghost after: Load)
      requires Valid() && c < nprocs && Resting(schedulers[c])
      requires Due(newTime) ==> RoundEnds(LoadView())
      modifies this, locks, schedulers, jobcounts
      ensures Valid() && Keeps(old(system), system)
      ensures if old(Due(newTime)) then lastAccounting == newTime && IsRound(old(LoadView()), round, after)
              else lastAccounting == old(lastAccounting) && after == old(LoadView())
      ensures c < |after.sys.cores| == |after.sys.counts| && LoadView() == after.(sys := system)
      ensures singleJobs[c] == 0 ==> SelectedAt(after.sys, c, secondary, job, system)
      ensures singleJobs[c] == 0 && job.pid != 0 ==> schedulers[c].Some? && job.pid in Out(schedulers[c].value)
      ensures singleJobs[c] != 0 ==> job == Grant(singleJobs[c], NONE - 1) && system == after.sys
    {
      ghost var s := system;
      round := AccountIfDue(c, newTime);
      after := LoadView();
      if singleJobs[c] != 0 {
        KeepsAll(s, after.sys);
        job := Grant(singleJobs[c], NONE - 1);
        return;
      }
      job := DoSelect(c);
      KeepsThrough(s, after.sys, system);
    }
  }
}
