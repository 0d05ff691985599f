/** The staircase scheduler as the program keeps it: job records moved between the level
    queues of two blocks that trade places, all updated in place. */
module StaircaseScheduler {
  import opened Scheduling
  import opened StaircaseBlocks

  class JobEntry {
    var timeslice: nat
    var lastTimeslice: nat
    var pid: nat
    var originalLevel: nat
    var lastLevel: nat
    ghost var ticket: nat  // numbers the entries of a queue from its head

    constructor (timeslice: nat, pid: nat, level: nat)
      ensures View() == Entry(pid, timeslice, 0, level, level)
    {
      this.timeslice, lastTimeslice, this.pid, originalLevel, lastLevel := timeslice, 0, pid, level, level;
    }

    ghost function View(): Entry
      reads this
    {
      Entry(pid, timeslice, lastTimeslice, originalLevel, lastLevel)
    }

    // One level down, or back to its own level with a fresh quantum.
    method Descend(used: nat, ts: nat)
      requires used <= timeslice
      modifies this`timeslice, this`lastLevel
      ensures View() == Stepped(old(View()), used, ts)
    {
      timeslice := timeslice - used;
      if timeslice == 0 {
        lastLevel := originalLevel;
        timeslice := ts;
      } else if lastLevel != LAYERS - 1 {
        lastLevel := lastLevel + 1;
      }
    }
  }

  // job->data: nothing, the mark left by a swap, or the entry handed out.
  datatype JobData = NoData | SwapMark | Handed(entry: JobEntry)

  type StairJob = SchedulerJob<JobData>

  class StaircaseBlock {
    const timeslices: array<nat>
    const queues: array<seq<JobEntry>>
    ghost var records: set<JobEntry>
    ghost var heads: seq<nat>
    ghost var model: Block

    ghost predicate Valid()
      reads this, timeslices, queues, records
    {
      && timeslices.Length == queues.Length == LAYERS == |heads|
      && Shaped(model)
      && timeslices[..] == model.timeslices
      && forall l :: 0 <= l < LAYERS ==> QueueValid(l)
    }

    // Level l of the model is this queue; every entry knows its level and its place.
    ghost predicate QueueValid(l: nat)
      requires l < LAYERS && queues.Length == LAYERS == |heads| && Shaped(model)
      reads this, queues, records
    {
      && |queues[l]| == |model.queues[l]|
      && forall i :: 0 <= i < |queues[l]| ==>
           && queues[l][i] in records
           && queues[l][i].lastLevel == l
           && queues[l][i].ticket == heads[l] + i
           && queues[l][i].View() == model.queues[l][i]
    }

    constructor (ts: nat)
      ensures Valid() && model == FullBlock(ts) && records == {}
      ensures fresh(timeslices) && fresh(queues)
    {
      timeslices := new nat[LAYERS](_ => ts * 5);
      queues := new seq<JobEntry>[LAYERS](_ => []);
      heads := seq(LAYERS, _ => 0);
      records := {};
      model := FullBlock(ts);
    }

    method Enqueue(l: nat, je: JobEntry)
      requires Valid() && l < LAYERS && je !in records && je.lastLevel == l
      modifies this, queues, je`ticket
      ensures Valid() && model == Append(old(model), l, je.View()) && records == old(records) + {je}
    {
      je.ticket := heads[l] + |queues[l]|;
      records := records + {je};
      model := Append(model, l, je.View());
      queues[l] := queues[l] + [je];
      forall m | 0 <= m < LAYERS ensures QueueValid(m) {
        assert old(QueueValid(m));
      }
    }

    method Dequeue(l: nat) returns (je: JobEntry)
      requires Valid() && l < LAYERS && model.queues[l] != []
      modifies this, queues
      ensures Valid() && model == TakeHead(old(model), l) && records == old(records) - {je}
      ensures je in old(records) && je.View() == old(model).queues[l][0]
    {
      assert QueueValid(l);
      je := queues[l][0];
      records := records - {je};
      model := TakeHead(model, l);
      heads := heads[l := heads[l] + 1];
      queues[l] := queues[l][1..];
      forall m | 0 <= m < LAYERS ensures QueueValid(m) {
        assert old(QueueValid(m));
      }
    }

    method Charge(l: nat, used: nat)
      requires Valid() && l < LAYERS && used <= timeslices[l]
      modifies this, timeslices
      ensures Valid() && model == Spend(old(model), l, used) && records == old(records)
    {
      timeslices[l] := timeslices[l] - used;
      model := Spend(model, l, used);
      forall m | 0 <= m < LAYERS ensures QueueValid(m) {
        assert old(QueueValid(m));
      }
    }
  }

  class SchedulerStaircase {
    const timeslice: nat
    var active: StaircaseBlock
    var exhausted: StaircaseBlock

    ghost function Footprint(): set<object>
      reads this, active, exhausted
    {
      {active, active.timeslices, active.queues, exhausted, exhausted.timeslices, exhausted.queues}
    }

    ghost predicate Valid()
      reads this, Footprint(), active.records, exhausted.records
    {
      && active.Valid() && exhausted.Valid()
      && active != exhausted
      && active.timeslices != exhausted.timeslices
      && active.queues != exhausted.queues
      && active.records !! exhausted.records
    }

    ghost function View(): Staircase
      reads this, active, exhausted
    {
      Staircase(active.model, exhausted.model, timeslice)
    }

    ghost function Records(): set<JobEntry>
      reads this, active, exhausted
    {
      active.records + exhausted.records
    }

    constructor (timeslice: nat)
      ensures Valid() && View() == Fresh(timeslice) && Records() == {}
      ensures fresh(Footprint())
    {
      this.timeslice := timeslice;
      active := new StaircaseBlock(timeslice);
      exhausted := new StaircaseBlock(timeslice);
    }

    method Schedule(pid: nat, prio: Priority)
      requires Valid()
      modifies Footprint()
      ensures Valid() && View() == StaircaseBlocks.Schedule(old(View()), pid, prio)
      ensures active == old(active) && exhausted == old(exhausted)
      ensures fresh(Records() - old(Records()))
    {
      var je := new JobEntry(timeslice, pid, StartLevel(prio));
      active.Enqueue(StartLevel(prio), je);
    }

    method Reschedule(job: StairJob)
      requires Valid() && job.pid != 0 && job.data.Handed? && job.data.entry !in Records()
      requires CanReturn(View(), job.data.entry.View(), job.runtime)
      modifies Footprint(), job.data.entry
      ensures Valid() && View() == StaircaseBlocks.Reschedule(old(View()), old(job.data.entry.View()), job.runtime)
      ensures active == old(active) && exhausted == old(exhausted)
      ensures Records() == old(Records()) + {job.data.entry}
    {
      var je := job.data.entry;
      var used := je.lastTimeslice - job.runtime;
      active.Charge(je.lastLevel, used);
      je.Descend(used, timeslice);
      exhausted.Enqueue(je.lastLevel, je);
    }

    method Unschedule(job: StairJob)
      requires Valid() && job.pid != 0 && job.data.Handed? && job.data.entry !in Records()
      requires CanReturn(View(), job.data.entry.View(), 0)
      modifies Footprint()
      ensures Valid() && View() == StaircaseBlocks.Unschedule(old(View()), old(job.data.entry.View()))
      ensures active == old(active) && exhausted == old(exhausted) && Records() == old(Records())
    {
      var je := job.data.entry;
      active.Charge(je.lastLevel, je.lastTimeslice);
    }

    // The scan over the levels of the active block.
    method FindLevel() returns (selectedLevel: nat)
      requires Valid()
      ensures selectedLevel == FirstEligible(active.model)
    {
      selectedLevel := 0;
      while selectedLevel < LAYERS
        invariant selectedLevel <= LAYERS
        invariant forall i :: 0 <= i < selectedLevel ==> !Eligible(active.model, i)
      {
        assert active.QueueValid(selectedLevel);
        if active.timeslices[selectedLevel] == 0 {
          selectedLevel := selectedLevel + 1;
          continue;
        }
        if |active.queues[selectedLevel]| == 0 {
          selectedLevel := selectedLevel + 1;
          continue;
        }
        break;
      }
      FirstEligibleUnique(active.model, selectedLevel);
    }

    method TakeFrom(l: nat, job: StairJob)
      requires Valid() && Eligible(active.model, l)
      modifies active, active.queues, job, active.records
      ensures Valid() && View() == Take(old(View()), l).0
      ensures job.data.Handed? && job.data.entry.View() == Take(old(View()), l).1
      ensures job.pid == job.data.entry.pid && job.runtime == job.data.entry.lastTimeslice
      ensures job.data.entry in old(Records()) && Records() == old(Records()) - {job.data.entry}
    {
      var je := active.Dequeue(l);
      job.pid := je.pid;
      je.lastTimeslice := Min(je.timeslice, Min(active.timeslices[l], timeslice));
      job.runtime := je.lastTimeslice;
      job.data := Handed(je);
    }

    method Select(job: StairJob)
      requires Valid() && job.data != SwapMark
      modifies this, Footprint(), job, Records()
      ensures Valid() && View() == StaircaseBlocks.Select(old(View())).0
      ensures StaircaseBlocks.Select(old(View())).1 == if job.data.Handed? then Some(job.data.entry.View()) else None
      ensures job.data.Handed? ==>
                && job.pid == job.data.entry.pid && job.runtime == job.data.entry.lastTimeslice
                && job.data.entry in old(Records()) && Records() == old(Records()) - {job.data.entry}
      ensures !job.data.Handed? ==> job.pid == 0 && job.runtime == 0 && job.data == NoData
                                    && Records() == old(Records())
      ensures {active, exhausted} == old({active, exhausted})
    {
      SelectFrom(job);
    }

    // Nothing to run: the job record says so.
    method Idle(job: StairJob)
      modifies job
      ensures job.pid == 0 && job.runtime == 0 && job.data == NoData
    {
      job.pid, job.runtime, job.data := 0, 0, NoData;
    }

    method Swap(job: StairJob)
      requires Valid()
      modifies this`active, this`exhausted, job`data
      ensures Valid() && View() == Swapped(old(View())) && Records() == old(Records())
      ensures active == old(exhausted) && exhausted == old(active) && job.data == SwapMark
    {
      active, exhausted := exhausted, active;
      job.data := SwapMark;
    }

    // The scheduler's select: it calls itself once, with the job marked, after a swap.
    method SelectFrom(job: StairJob)
      requires Valid()
      modifies this, Footprint(), job, Records()
      decreases job.data != SwapMark
      ensures Valid() && View() == StaircaseBlocks.Select(old(View()), old(job.data) == SwapMark).0
      ensures StaircaseBlocks.Select(old(View()), old(job.data) == SwapMark).1
           == if job.data.Handed? then Some(job.data.entry.View()) else None
      ensures job.data.Handed? ==>
                && job.pid == job.data.entry.pid && job.runtime == job.data.entry.lastTimeslice
                && job.data.entry in old(Records()) && Records() == old(Records()) - {job.data.entry}
      ensures !job.data.Handed? ==> job.pid == 0 && job.runtime == 0 && job.data == NoData
                                    && Records() == old(Records())
      ensures {active, exhausted} == old({active, exhausted})
    {
      var selectedLevel := FindLevel();
      if selectedLevel == LAYERS {
        if job.data == SwapMark {
          Idle(job);
        } else {
          Swap(job);
          SelectFrom(job);
        }
      } else {
        TakeFrom(selectedLevel, job);
      }
    }
  }
}
