/** The completely fair scheduler as the program keeps it: task records reached from the
    tree and from the job, updated in place. Each method is tied to the timeline
    operation of the same name. */
module FairScheduler {
  import opened Scheduling
  import opened FairTimeline

  class SchedulerTask {
    var pid: nat
    var runtime: nat
    var timebase: nat
    var weight: nat

    constructor (pid: nat, weight: nat)
      ensures View() == Task(pid, 0, 0, weight)
    {
      this.pid, this.runtime, this.timebase, this.weight := pid, 0, 0, weight;
    }

    ghost function View(): Task
      reads this
    {
      Task(pid, runtime, timebase, weight)
    }
  }

  type FairJob = SchedulerJob<SchedulerTask?>

  class SchedulerFair {
    const timeslice: nat
    var processTree: map<nat, SchedulerTask>
    var timebaseOffset: nat
    var load: nat
    ghost var records: set<SchedulerTask>  // those filed in the tree

    // Every record is filed under its own timebase, so under one key only.
    ghost predicate Valid()
      reads this`processTree, this`records, records
    {
      forall k :: k in processTree ==> processTree[k] in records && processTree[k].timebase == k
    }

    ghost function Tree(): (tree: map<nat, Task>)
      reads this`processTree, this`records, records
      requires Valid()
      ensures tree.Keys == processTree.Keys
    {
      map k | k in processTree :: processTree[k].View()
    }

    ghost function View(): Timeline
      reads this, records
      requires Valid()
    {
      Timeline(Tree(), timebaseOffset, load)
    }

    constructor (timeslice: nat)
      ensures Valid() && View() == EMPTY && this.timeslice == timeslice
    {
      this.timeslice := timeslice;
      processTree, timebaseOffset, load, records := map[], 0, 0, {};
    }

    method TimelineInsert(task: SchedulerTask, base: nat)
      requires Valid() && task !in records
      modifies this`processTree, this`records, this`timebaseOffset, task`timebase
      ensures Valid()
      ensures task.timebase !in old(processTree) && processTree == old(processTree)[task.timebase := task]
      ensures View() == Insert(old(View()), old(task.View()), base)
    {
      var timebase := base + MIN_GRANULARITY;
      timebaseOffset := timebaseOffset + MIN_GRANULARITY;
      timebase := FreeKey(timebase + timebaseOffset);
      File(task, timebase);
    }

    // The collision loop.
    method FreeKey(target: nat) returns (timebase: nat)
      requires Valid()
      ensures timebase == LeastFree(Tree(), target) && timebase !in processTree
    {
      timebase := target;
      while timebase in processTree
        invariant LeastFree(processTree, timebase) == LeastFree(processTree, target)
        decreases |KeysFrom(processTree, timebase)|
      {
        KeysFromNext(processTree, timebase);
        timebase := timebase + 1;
      }
      LeastFreeSameKeys(processTree, Tree(), target);
    }

    method File(task: SchedulerTask, timebase: nat)
      requires Valid() && task !in records && timebase !in processTree
      modifies this`processTree, this`records, task`timebase
      ensures Valid() && task.timebase == timebase && processTree == old(processTree)[timebase := task]
      ensures Tree() == old(Tree())[timebase := old(task.View()).(timebase := timebase)]
    {
      processTree, records := processTree[timebase := task], records + {task};
      task.timebase := timebase;
    }

    method LeastOrZero() returns (least: nat)
      requires Valid()
      ensures least == if Tree() == map[] then 0 else LeastKey(Tree())
    {
      least := 0;
      if processTree != map[] {
        least := LeastKey(processTree);
        LeastKeySameKeys(processTree, Tree());
      }
    }

    method Schedule(pid: nat, prio: Priority) returns (ghost task: SchedulerTask)
      requires Valid()
      modifies this`processTree, this`records, this`timebaseOffset, this`load
      ensures Valid()
      ensures View() == FairTimeline.Schedule(old(View()), pid, prio)
      ensures fresh(task) && task.timebase !in old(processTree)
      ensures processTree == old(processTree)[task.timebase := task]
    {
      var least := LeastOrZero();
      ghost var tl := View();
      var newTask := NewTask(pid, WeightTenths(prio));
      ghost var heavier := View();
      assert heavier == tl.(load := tl.load + WeightTenths(prio));
      TimelineInsert(newTask, least);
      assert View() == Insert(heavier, Task(pid, 0, 0, WeightTenths(prio)), least);
      ScheduleIs(tl, pid, prio, least);
      task := newTask;
    }

    // A record on its own, its weight already in the load.
    method NewTask(pid: nat, weight: nat) returns (task: SchedulerTask)
      requires Valid()
      modifies this`load
      ensures Valid() && View() == old(View()).(load := old(load) + weight) && processTree == old(processTree)
      ensures fresh(task) && task.View() == Task(pid, 0, 0, weight) && task !in records && records == old(records)
    {
      task := new SchedulerTask(pid, weight);
      load := load + weight;
    }

    method Reschedule(job: FairJob)
      requires Valid()
      requires job.data != null ==>
                 job.data !in records && job.data.weight > 0 && job.runtime <= job.data.runtime
      modifies this`processTree, this`records, this`timebaseOffset, if job.data == null then {} else {job.data}
      ensures Valid()
      ensures job.data == null ==> unchanged(this)
      ensures job.data != null ==>
                && View() == FairTimeline.Reschedule(old(View()), old(job.data.View()), job.runtime)
                && job.data.timebase !in old(processTree)
                && processTree == old(processTree)[job.data.timebase := job.data]
    {
      var lastTask := job.data;
      if lastTask != null {
        assert lastTask.runtime >= job.runtime;
        TimelineInsert(lastTask, lastTask.timebase + Charge(lastTask.runtime - job.runtime, lastTask.weight));
        timebaseOffset := 0;
      }
    }

    method Unschedule(job: FairJob)
      requires Valid()
      requires job.data != null ==> job.data.weight <= load
      modifies this`load
      ensures Valid()
      ensures job.data == null ==> unchanged(this)
      ensures job.data != null ==> View() == FairTimeline.Unschedule(old(View()), job.data.View())
    {
      var lastTask := job.data;
      if lastTask != null {
        load := load - lastTask.weight;
      }
    }

    // Take the record at the least key out of the tree.
    method TakeLeast() returns (least: nat, lastTask: SchedulerTask)
      requires Valid() && processTree != map[]
      modifies this`processTree, this`records
      ensures records == old(records) - {lastTask}
      ensures Valid() && least == LeastKey(old(processTree)) == LeastKey(old(Tree()))
      ensures lastTask == old(processTree)[least] && lastTask !in records && lastTask in old(records)
      ensures processTree == old(processTree) - {least} && Tree() == old(Tree()) - {least}
    {
      LeastKeySameKeys(processTree, Tree());
      least := LeastKey(processTree);
      lastTask := processTree[least];
      processTree, records := processTree - {least}, records - {lastTask};
    }

    // How long a record just taken from `least` may run.
    method SliceAfter(least: nat) returns (rt: nat)
      requires Valid() && forall j :: j in processTree ==> least <= j
      ensures rt == Slice(Tree(), least, timeslice)
    {
      if processTree == map[] {
        rt := timeslice * 10;
      } else {
        LeastKeySameKeys(processTree, Tree());
        var next := LeastKey(processTree);
        rt := next - least;
        if rt < MIN_GRANULARITY {
          rt := MIN_GRANULARITY;
        }
      }
    }

    // Hand it over: the record and the job carry the same slice.
    method Grant(job: FairJob, lastTask: SchedulerTask, rt: nat)
      requires Valid() && lastTask !in records
      modifies job, lastTask`runtime
      ensures Valid() && View() == old(View())
      ensures job.data == lastTask && job.pid == lastTask.pid && job.runtime == rt
      ensures lastTask.View() == old(lastTask.View()).(runtime := rt)
    {
      job.pid, job.data, job.runtime := lastTask.pid, lastTask, rt;
      lastTask.runtime := rt;
    }

    method Select(job: FairJob)
      requires Valid()
      modifies this`processTree, this`records, job, records
      ensures Valid()
      ensures View() == FairTimeline.Select(old(View()), timeslice).0
      ensures old(processTree) == map[] ==>
                job.pid == 0 && job.runtime == 0 && job.data == null && unchanged(this)
      ensures old(processTree) != map[] ==>
                && job.data == old(processTree)[LeastKey(old(processTree))]
                && processTree == old(processTree) - {LeastKey(old(processTree))}
                && Some(job.data.View()) == FairTimeline.Select(old(View()), timeslice).1
                && job.pid == job.data.pid && job.runtime == job.data.runtime
    {
      if processTree == map[] {
        job.pid, job.runtime, job.data := 0, 0, null;
      } else {
        var least, lastTask := TakeLeast();
        var rt := SliceAfter(least);
        Grant(job, lastTask, rt);
      }
    }
  }

  lemma LeastKeySameKeys<S, T>(a: map<nat, S>, b: map<nat, T>)
    requires a.Keys == b.Keys && a != map[]
    ensures b != map[] && LeastKey(a) == LeastKey(b)
  {
  }

  lemma LeastFreeSameKeys<S, T>(a: map<nat, S>, b: map<nat, T>, t: nat)
    requires a.Keys == b.Keys
    ensures LeastFree(a, t) == LeastFree(b, t)
  {
  }

  lemma ScheduleIs(tl: Timeline, pid: nat, prio: Priority, least: nat)
    requires least == if tl.tree == map[] then 0 else LeastKey(tl.tree)
    ensures FairTimeline.Schedule(tl, pid, prio)
         == Insert(tl.(load := tl.load + WeightTenths(prio)), Task(pid, 0, 0, WeightTenths(prio)), least)
  {
  }
}
