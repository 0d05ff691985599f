# Yarns, modelled and verified

Yarns is a user-space threading library: yarns are scheduled cooperatively on a few
processor threads, by one scheduler per core and a master scheduler that balances the
cores. This project models its schedulers, the structures they stand on, the balancer, the
yarn locks and its two allocators in Dafny, and proves what they keep over whole runs and
in every interleaving.

`dafny verify dfyconfig.toml` checks everything.

## How it is laid out

Code that changes state in place is a class or a method with loops here, and each such
method is tied by its `ensures` to a function of values. The laws over whole runs are lemmas
about those functions: a run is a list of events, each legal where it occurs, and nothing
bounds its length. Code that several yarns or cores run at once is a step relation with one
step per shared read, write, compare-and-swap or add.

| files | what they hold |
|---|---|
| `Scheduling` | priorities, the job record, sums |
| `FairTimeline`, `FairRuns`, `FairBypass`, `FairStarvation`, `FairWindow`, `FairDivergence`, `FairScheduler` | the completely fair scheduler: its timeline, runs, waiting bounds, freedom from starvation under arrivals, key window and when there is none, and the objects |
| `StaircaseBlocks`, `StaircaseRuns`, `StaircasePasts`, `StaircaseEpochs`, `StaircaseFates`, `StaircaseDrain`, `StaircaseScheduler` | the staircase scheduler: blocks and levels, budgets over runs, where a job is told from its past, epochs, what becomes of a queued job, runs that use the budgets up, and the objects |
| `Fifo`, `RoundRobin` | the segmented queue and the round-robin scheduler on it |
| `Schedulers`, `Standing`, `Dispatch` | the three schedulers behind one contract, what a priority gives and a slice costs on each, and the dispatch loop of one core from the program's start |
| `Balancer`, `MasterSystem`, `AccountingStalls`, `MasterScheduler` | hoisting and rebalancing, all cores as one state, donated ones included, runs after which the accounting never comes back, and the master scheduler's arrays |
| `YarnLock`, `LockRuns`, `RwLock`, `RwGrant` | the reentrant lock and the reader/writer lock, interleaved, and when each can still be granted |
| `LittleAllocator`, `BigBook`, `PageMap`, `LittlePages` | the small-block allocator and the book of large blocks as values, the pages the program has, and both over memory |
| `PoolBits`, `PoolLayout`, `PoolProtocol`, `PoolProgress`, `PoolChain` | the slot pool: the flag word, layout, concurrent allocation and who can still be served, and the chain's objects |

Conventions. The timeslice is a parameter. Fair weights are exact tenths and a charge is the
truncated quotient of time by weight. Virtual time, runtimes and job counts are unbounded
naturals; the words of the locks, the pool, the allocator's headers and the value a yield
leaves are 32 bits wide and their wrap-around is written out. A scheduler's tree is a finite
map from key to task. The time a job reports on return is any value up to what it was
granted, which is what the dispatch loop's clamp gives.

Some invariants and effects (in `MasterSystem`, `Schedulers`, `Dispatch` and a few others)
are stated folded, as a quantifier over the one state they are about, so that a proof opens
them only by naming what is inside. They say no more and no less than the plain facts.

## What turned out differently

- Staircase budgets are never refilled. The time charged plus what is left is always 200
  slices, and a queued job is never handed out again if and only if its level has no budget
  left. Six yarns of normal priority are enough: the sixth never runs, with 195 slices
  unspent. A job that has the scheduler to itself gets ten slices in its life, and after
  fifty well-placed slices the scheduler is idle for ever, whatever arrives. The
  repository's README calls it a great all-round scheduler; the code is followed here.
- `yarn_rwlock_write_unlock` clears bit 31, not bit 30 where the write lock is. The lock is
  safe, but the write lock is granted at most once, and after that no reader or writer ever
  gets in again. Until then a grant can still be reached if and only if no yarn that holds a
  read lock is after the write lock, or after another read lock while a writer waits.
- The reentrant lock has neither fault: from every state a yarn can be granted it, to any
  depth, and can give it back.
- The reader count stays right up to 2^30 - 1 read locks; the next one sets the write bit.
- `rebalance` goes round for ever unless the source has at least half the excess, rounded
  up, queued. A core with two jobs always has; a core whose one job is running, next to an
  idle one, never has, and an ordinary run of four yarns on two round-robin cores gets there.
- The periodic accounting can take one lock twice, or go round for ever, and whether it
  does is decided by the job counts, the busy cores and the remembered least loaded core.
  With no core busy with its only job, the first of its two shifts fails exactly when all
  counts are equal, if that core is looked up, and exactly when it is the first most loaded
  core, if it is remembered; with several cores the first yarn of all is enough. A core busy
  with its only job stops it in more cases, such as counts of one and none. On two cores
  a whole round ends only if core 0 has more jobs by an even number (nothing remembered),
  if the counts differ by an odd number and the remembered core is behind (remembered once
  more), or if core 1 is remembered and core 0 is level or ahead by an even number
  (remembered twice more).
- There is never more than one donated core. A second titanic yarn takes the core from the
  first, which is then nowhere, and when either of them ends the core is taken from the
  other. On two cores one titanic yarn is enough for every due accounting to take core 0's
  lock twice.
- `yarn_yield` adds the elapsed time instead of taking it off, so a yield charges nothing.
- The fair scheduler's key window is bounded if and only if no task of very low priority is
  started together with another of weight below one: two such tasks drive each other apart
  without end. Otherwise n waiting keys lie within 148 + 51 n when all weigh at least one,
  300 + 153 n when the least urgent is of low priority, and 691 + 255 n beside one of very
  low priority.
- A large request gets its bytes, all its own, up to 2^32 - 4096; for the last 4095 lengths
  the rounding leaves the word and the page allocator is asked for nothing.
- `yalloc(0)` on an exactly full page answers a page-aligned address, which `yfree` takes
  for a large block. No other small request does.
- The head entry of a slot in the book of large blocks is never cleared. A large block is
  given back with the length it was asked for unless the first large block ever recorded in
  its slot was at the same address with another length. Take one page, give it back, take
  two at the same address, and they are given back as one. Take two, give them back, take
  one there, and it is given back as two: where the pages of that length are returned
  (system/pages.c:54-60) the program loses a page in which small blocks may be live, and the
  next page call may answer it. Both allocators are safe in every run without such an
  over-long give-back, and in every run of the build that ignores the length
  (system/pages.c:102-106).

## Model

| member | source | states |
|---|---|---|
| `FairTimeline.UrgentWeighsMore` | sched/sched_fair.c:40-52 | the more urgent of two priorities has the larger weight |
| `FairTimeline.LeastFree` | sched/sched_fair.c:60-62 | the collision loop ends at the least free key at or above its start |
| `FairTimeline.LeastFreeNear` | sched/sched_fair.c:60-62 | it moves up at most once for each key at or above its start |
| `FairTimeline.LeastFreeWithinSize` | sched/sched_fair.c:60-62 | a task is filed at most as many keys above its target as the tree holds |
| `FairTimeline.LeastKey` | sched/sched_fair.c:74 | the minimum of the tree is the least of its keys |
| `FairTimeline.SelectExact` | sched/sched_fair.c:124-141 | selection takes exactly the least entry; the slice lasts to the next key, at least 50, or ten timeslices when nothing else waits |
| `FairTimeline.ChargeExact` | sched/sched_fair.c:94 | the charge is the time used divided by the weight, truncated |
| `FairTimeline.ChargeByPriority` | sched/sched_fair.c:40-52 | what 300 units of time cost at each priority: 60, 100, 150, 300, 500 and 1500 |
| `FairRuns.InsertFacts` | sched/sched_fair.c:54-67 | an insertion goes to the least free key at or above base + 100 + offset, overwrites nothing, and adds exactly the weight inserted |
| `FairRuns.ArriveKey` | sched/sched_fair.c:69-84 | a new task is filed with the weight of its priority, at least 100 above the current minimum, under its own timebase, next to everything already there |
| `FairRuns.ReturnKey` | sched/sched_fair.c:86-97 | a returning task is filed at the least free key from its old one plus 100, the offset and its charge |
| `FairRuns.StepWf` | sched/sched_fair.c:69-143 | every operation keeps: key equals timebase, one place per pid, load equal to the weights queued and outstanding |
| `FairRuns.RunWf` | sched/sched_fair.c:69-143 | so does every run |
| `FairRuns.SelectedKeysAscend` | sched/sched_fair.c:54-143 | on one core, while a task waits at key k the selected keys strictly increase and stay below k, whatever arrives |
| `FairRuns.NoStarvation` | sched/sched_fair.c:54-143 | on one core a task waiting at key k is among the next k - b + 1 selections for any floor b of the timeline, under any arrivals |
| `FairRuns.PicksPrefix` | sched/sched_fair.c:111-143 | the selections of a run up to any moment are a prefix of all of them |
| `FairBypass.NextKeyRises` | sched/sched_fair.c:54-143 | a task's next key never falls, and rises by at least 100 each time it is selected |
| `FairBypass.BoundedBypass` | sched/sched_fair.c:54-143 | while a task waits at key k, another whose next key is x is selected at most ceil((k - x)/100) times, with any number of cores and any events |
| `FairBypass.WaitingBound` | sched/sched_fair.c:54-143 | with a fixed task set, the selections before a waiting task's turn are at most the sum of those bounds |
| `FairStarvation.PatienceEnough` | sched/sched_fair.c:54-143 | while a task waits, with any number of tasks out and any arrivals, the selections made are at most a number fixed when it began to wait |
| `FairStarvation.NobodyStarves` | sched/sched_fair.c:54-143 | so a waiting task is selected after at most that many others, in every run that selects more |
| `FairWindow.ReturnNearNext` | sched/sched_fair.c:86-97 | a returning task is filed at most n + offset and an overshoot fixed by its weight above the least waiting key, and the offset is then zero |
| `FairWindow.LaunchKeys` | sched/sched_fair.c:54-84 | n tasks started together are all filed between 100 and 150 + 50 n, with an offset of 50 n |
| `FairWindow.NarrowRun` | sched/sched_fair.c:54-143 | selections, returns and completions keep the window, with one very low priority among the tasks or none |
| `FairWindow.KeyWindow` | sched/sched_fair.c:54-143 | for any run on one core of tasks started together, with a very low priority only beside weights of at least one, all waiting keys lie within the window |
| `FairWindow.WindowIs` | sched/sched_fair.c:40-52 | the window is 148 + 51 n, with a low priority 300 + 153 n, with a very low one 691 + 255 n |
| `FairDivergence.AloneDiverge` | sched/sched_fair.c:54-143 | a task of weight 0.2 and another of at most 0.6, alone, each using its whole slice, pass every bound |
| `FairDivergence.OthersLeave` | sched/sched_fair.c:54-143 | so can they beside any other tasks, which finish one after another |
| `FairDivergence.BoundedIff` | sched/sched_fair.c:54-143 | the keys of tasks started together stay within some bound if and only if no very low priority is among them beside another weight below one |
| `FairScheduler.SchedulerFair.constructor` | sched/sched_fair.c:145-159 | a new scheduler has an empty timeline |
| `FairScheduler.SchedulerFair.TimelineInsert` | sched/sched_fair.c:54-67 | the loop files the record at a free key, under its own timebase, and refines the insertion on values |
| `FairScheduler.SchedulerFair.Schedule` | sched/sched_fair.c:69-84 | adds one fresh record and refines the operation on values |
| `FairScheduler.SchedulerFair.Reschedule` | sched/sched_fair.c:86-97 | the assertion never fails for a clamped job; the record is filed again and the offset reset; without data nothing changes |
| `FairScheduler.SchedulerFair.Unschedule` | sched/sched_fair.c:99-109 | takes the record's weight off the load and leaves the tree alone |
| `FairScheduler.SchedulerFair.Select` | sched/sched_fair.c:111-143 | hands out the record at the least key with the slice to the next key, at least 50, or ten timeslices when it is alone |
| `StaircaseBlocks.StartLevel` | sched/sched_staircase.c:48-51 | no priority starts deeper than level 8, so the level array is never overrun |
| `StaircaseBlocks.UrgentStartsHigher` | sched/sched_staircase.c:48-51 | a less urgent priority never starts at a higher level, and only the first two start at the same one |
| `StaircaseBlocks.FirstEligible` | sched/sched_staircase.c:109-122 | the scan finds the first level with budget and a job |
| `StaircaseBlocks.SelectExact` | sched/sched_staircase.c:104-150 | idle if and only if no level of either block is eligible; otherwise the head of the first eligible level, with a positive slice no larger than the job's quantum, the level's budget or the timeslice |
| `StaircaseRuns.InitWf` | sched/sched_staircase.c:152-174 | the new scheduler meets the invariant |
| `StaircaseRuns.ReturnCannotWrap` | sched/sched_staircase.c:72-73 | no subtraction from a budget or a quantum wraps |
| `StaircaseRuns.StepWf` | sched/sched_staircase.c:45-150 | every operation keeps: an entry's last level is where it is queued, one place per pid, budgets and charges adding up |
| `StaircaseRuns.RunWf` | sched/sched_staircase.c:45-150 | so does every run |
| `StaircaseRuns.BudgetConserved` | sched/sched_staircase.c:63-102 | over any run the 40 budgets and the time charged add up to 200 timeslices |
| `StaircasePasts.SteppedFits` | sched/sched_staircase.c:72-88 | a return keeps what the past tells: the quantum less the time used since it was last whole, or whole again on the job's own level when that makes a timeslice, and one level down otherwise |
| `StaircasePasts.ToldByThePast` | sched/sched_staircase.c:45-150 | after any run, the level, the quantum and the own level of every job follow from the priority it arrived with and the times it used |
| `StaircaseEpochs.EpochNoRepeats` | sched/sched_staircase.c:63-150 | between two swaps no job is handed out twice, and only jobs pending in the active block are |
| `StaircaseEpochs.EpochLength` | sched/sched_staircase.c:104-150 | an epoch hands out at most the active population and the arrivals |
| `StaircaseEpochs.EpochDescends` | sched/sched_staircase.c:104-150 | without arrivals the levels handed out never decrease |
| `StaircaseEpochs.LeftAtSwapIsStuck` | sched/sched_staircase.c:123-139 | a job still queued in the active block at a swap sits on a level with no budget |
| `StaircaseEpochs.StuckForever` | sched/sched_staircase.c:63-150 | such a job is never handed out again in any continuation |
| `StaircaseEpochs.SpentIsIdleForever` | sched/sched_staircase.c:104-150 | once all budgets are spent every selection is idle for ever |
| `StaircaseFates.HandedOutIff` | sched/sched_staircase.c:63-150 | a queued job is handed out in some continuation if and only if its level has budget |
| `StaircaseFates.DeadForever` | sched/sched_staircase.c:45-150 | with nothing runnable and no budget on the levels where yarns start, nothing is handed out again, whatever arrives |
| `StaircaseFates.IdleForeverIff` | sched/sched_staircase.c:45-150 | with no job out, the scheduler is idle in every continuation if and only if it is in that state |
| `StaircaseDrain.SixthNeverRuns` | sched/sched_staircase.c:45-174 | from a new scheduler, five normal yarns that run and end leave the sixth stuck with 195 slices unspent |
| `StaircaseDrain.DeadEarly` | sched/sched_staircase.c:45-174 | from a new scheduler, a run after which it is idle for ever with 150 slices unspent |
| `StaircaseDrain.AllSpent` | sched/sched_staircase.c:45-174 | from a new scheduler, a run that spends all 200 slices |
| `StaircaseDrain.TenSlices` | sched/sched_staircase.c:45-174 | a job alone that uses its slices gets exactly ten, whatever its priority, and is stuck then |
| `StaircaseScheduler.SchedulerStaircase.constructor` | sched/sched_staircase.c:152-174 | two blocks of 20 empty levels with five timeslices each |
| `StaircaseScheduler.SchedulerStaircase.Schedule` | sched/sched_staircase.c:45-58 | queues one fresh entry at its start level in the active block |
| `StaircaseScheduler.SchedulerStaircase.Reschedule` | sched/sched_staircase.c:63-89 | charges the active block and queues the same entry in the exhausted one, refining the operation on values |
| `StaircaseScheduler.SchedulerStaircase.Unschedule` | sched/sched_staircase.c:91-102 | charges the whole slice and queues nothing |
| `StaircaseScheduler.SchedulerStaircase.FindLevel` | sched/sched_staircase.c:107-122 | the scanning loop finds the first eligible level, or 20 |
| `StaircaseScheduler.SchedulerStaircase.SelectFrom` | sched/sched_staircase.c:123-149 | the self-call happens once, after the swap mark is set; the result is that of the selection on values |
| `Fifo.Queue.constructor` | data/queue.c:26-30 | a new queue is the empty sequence |
| `Fifo.Queue.Enqueue` | data/queue.c:49-72 | appends one element; new segments are fresh |
| `Fifo.Queue.Dequeue` | data/queue.c:74-89 | returns and removes the first element, or answers 0 and changes nothing; a segment is released when its last cell is read |
| `Fifo.Queue.ReadHead` | data/queue.c:78 | the cell read was written |
| `Fifo.Queue.DrainHead` | data/queue.c:78-86 | the drained segment is the one released, and the chain continues at the next |
| `Fifo.Queue.Length` | data/queue.c:44-47 | the length is the number of elements |
| `Fifo.Queue.LengthIsSum` | data/queue.c:44-89 | the length is the sum of count - index over the segments |
| `Fifo.Queue.SpineLinks` | data/queue.c:49-72 | each segment links to the next, in order of allocation, and the last to none |
| `Fifo.Queue.Free` | data/queue.c:32-42 | releases every remaining segment once; with those released before, each segment ever allocated exactly once |
| `RoundRobin.SchedulerRoundRobin.Schedule` | sched/sched_roundrobin.c:20-24 | the new pid goes to the end of the queue |
| `RoundRobin.SchedulerRoundRobin.Select` | sched/sched_roundrobin.c:26-39 | the first pid with a whole timeslice, or pid 0 when none is queued |
| `RoundRobin.SchedulerRoundRobin.Reschedule` | sched/sched_roundrobin.c:41-45 | the pid goes back to the end |
| `RoundRobin.SchedulerRoundRobin.TakeTurns` | sched/sched_roundrobin.c:20-45 | k selections, each job queued again before the next: the i-th pick is the job at place i mod n of the queue as it was, and the queue ends rotated |
| `RoundRobin.RotationLaw` | sched/sched_roundrobin.c:20-45 | with n jobs each queued again before the next selection, the k-th selection is job k mod n, for all k |
| `Schedulers.ScheduleContract` | sched/master_scheduler.h:27-28 | each of the three schedulers queues exactly the job scheduled and touches no job that is out |
| `Schedulers.SelectContract` | sched/master_scheduler.h:29-30 | select moves one queued job out or reports idle and moves none; fair and round robin report idle only when nothing is queued |
| `Schedulers.RescheduleContract` | sched/master_scheduler.h:31-32 | reschedule moves the job back |
| `Schedulers.UnscheduleContract` | sched/master_scheduler.h:33-34 | unschedule forgets it |
| `Schedulers.RobinTurn` | sched/sched_roundrobin.c:26-45 | behind the common contract too, a selection and its reschedule are one turn of the queue, whatever is out |
| `Schedulers.OnePlace` | lib/yarn.c:371-431 | queued and outstanding jobs together hold each pid at most once |
| `Standing.ScheduleJoins` | lib/yarn.c:292 | a yarn joins with its priority: its weight on a fair core, its level and a whole timeslice on a staircase, last in line on round robin, and nothing else changes |
| `Standing.ScheduleStands` | sched/master_scheduler.h:27-28 | an arrival leaves every other yarn the weight or level of its priority |
| `Standing.SelectStands` | sched/master_scheduler.h:29-30 | so does a selection |
| `Standing.RescheduleStands` | sched/master_scheduler.h:31-32 | so does a return, the returning yarn's included |
| `Standing.UnscheduleStands` | sched/master_scheduler.h:33-34 | so does an end |
| `Standing.RescheduleCharges` | lib/yarn.c:414-431 | a return costs what was used of the slice: on a fair core that over the weight, added to the key; on a staircase that much of the budget of the level it ran at; nothing on round robin |
| `Standing.UnscheduleEnds` | lib/yarn.c:416-421 | a yarn that ends files nothing and, on a staircase, pays for its whole slice |
| `Standing.ScheduleHolds` | lib/yarn.c:274-294 | yarns created while another runs touch neither its record nor what has been charged |
| `Dispatch.YieldChargesNothing` | lib/yarn.c:305-312 | the elapsed time is added, so after the clamp the whole grant is left, unless the sum leaves the word |
| `Dispatch.YieldCostsNothing` | lib/yarn.c:305-312 | so a yield within the word is charged nothing at all |
| `Dispatch.SpawnKeeps` | lib/yarn.c:274-294 | a pid in the table, never scheduled, can be scheduled whatever is out; the books stay right and no grant changes |
| `Dispatch.PickKeeps` | lib/yarn.c:371-390 | the pid selected is alive, below maxpid and in the table |
| `Dispatch.BackKeeps` | lib/yarn.c:414-431 | a clamped return is legal for every scheduler and keeps the books |
| `Dispatch.EndKeeps` | lib/yarn.c:416-421 | an ended yarn leaves both populations |
| `Dispatch.YarnProcessor.ListInsert` | lib/yarn.c:159-168 | the next pid, never scheduled before, with its entry in the table |
| `Dispatch.YarnProcessor.YarnNew` | lib/yarn.c:274-294 | one new entry in the pid table, whatever is out, scheduled at once with its priority if and only if the scheduler has been started |
| `Dispatch.YarnProcessor.YarnsNew` | lib/yarn.c:274-294 | any number of yarns, created while another runs, join in order with consecutive pids and their own priorities, and leave what is out alone |
| `Dispatch.YarnProcessor.Prepare` | lib/yarn.c:274-294 | yarns created before the scheduler is started are in the pid table and nowhere else |
| `Dispatch.YarnProcessor.Launch` | lib/yarn.c:493-498 | starting schedules every yarn of the table exactly once, in order, with its own priority |
| `Dispatch.YarnProcessor.GiveBack` | lib/yarn.c:414-431 | the yarn ends exactly when its word is UNSCHEDULE; otherwise it is queued again, charged exactly what its word is short of its grant |
| `Dispatch.YarnProcessor.Iterate` | lib/yarn.c:360-433 | one pass runs the job the scheduler picks: its yarns join, and it pays for its slice; the tests for a bad or dead pid never drop one |
| `Dispatch.YarnProcessor.Process` | lib/yarn.c:360-433 | a whole run is one such pass after another; every pid given out is queued exactly once unless it has finished, with the weight or level of its priority, and none runs after it ended |
| `Dispatch.YarnProcess` | lib/yarn.c:475-520 | the same from the start of the program: yarns created, the scheduler started, any run of the loop; those first created keep the priority they were given |
| `Balancer.HoistLegal` | sched/master_scheduler.c:108-124 | each scheduler call of a hoist is one it may make |
| `Balancer.HoistMoves` | sched/master_scheduler.c:108-124 | a hoist moves the job the source would run next to the target's queue, at normal priority, and one count with it, touches no job that is out, and changes neither core's kind |
| `Balancer.RunExact` | sched/master_scheduler.c:132-133 | the state after n passes exactly: one job moved in each until the counts meet or the queue is dry |
| `Balancer.RebalanceExact` | sched/master_scheduler.c:128-136 | with enough jobs queued, exactly half the excess, rounded up, is hoisted; the target ends level or one ahead; the combined jobs are kept |
| `Balancer.LongRun` | sched/master_scheduler.c:132-133 | the loop can always make another pass until its guard fails |
| `Balancer.RebalanceEndsIff` | sched/master_scheduler.c:128-136 | rebalance ends if and only if the source has half the excess, rounded up, queued |
| `Balancer.CountTwoSuffices` | sched/master_scheduler.c:128-136 | a source with two jobs and at most one running always has enough; it falls short only when its one job is running |
| `MasterSystem.SameCoreIff` | sched/master_scheduler.c:60-99 | the most and the least loaded core are one exactly when all counts but those of donated cores are equal |
| `MasterSystem.CountsAddUp` | sched/master_scheduler.c:138-181 | the job counts add up to the yarns alive |
| `MasterSystem.ScheduledOn` | sched/master_scheduler.c:152-157 | scheduling on a core keeps the books of all cores and adds one yarn |
| `MasterSystem.SelectedOn` | sched/master_scheduler.c:160-165 | selecting keeps them and loses no yarn |
| `MasterSystem.RescheduledOn` | sched/master_scheduler.c:183-191 | rescheduling keeps them and loses no yarn |
| `MasterSystem.UnscheduledOn` | sched/master_scheduler.c:176-179 | unscheduling removes one yarn, from a count that is not zero |
| `MasterSystem.CallSchedule` | sched/master_scheduler.c:155 | the scheduler call makes exactly the new state and keeps the system's invariant |
| `MasterSystem.CallSelect` | sched/master_scheduler.c:163 | the same for select |
| `MasterSystem.CallReschedule` | sched/master_scheduler.c:188 | the same for reschedule |
| `MasterSystem.CallUnschedule` | sched/master_scheduler.c:177 | the same for unschedule |
| `MasterSystem.AlongGuard` | sched/master_scheduler.c:132 | the loop's guard holds for exactly the passes needed, with both schedulers ready for a hoist |
| `MasterSystem.AlongEnd` | sched/master_scheduler.c:128-136 | rebalancing keeps every core's books, every yarn and every running job, levels the two counts and touches no other core |
| `MasterSystem.BalanceableIff` | sched/master_scheduler.c:126-136 | with fair and round-robin cores, rebalancing ends unless it is given one core twice, or a core busy with its only job and one with none |
| `MasterSystem.RoundEndsIff` | sched/master_scheduler.c:193-213 | the two shifts of a round end if and only if neither stalls, computed from the counts, the donated core, the busy cores and the remembered answer alone |
| `MasterSystem.FirstShift` | sched/master_scheduler.c:60-99 | on cores not busy with their only job, donated ones apart, the first shift ends if and only if some two counts differ, or, with the least loaded core remembered, if and only if that is not the first most loaded one |
| `MasterSystem.SecondShift` | sched/master_scheduler.c:199-207 | on two cores, none donated, with the first answer remembered for it, the second shift ends if and only if core 0 had more jobs by an even number, or core 1 was remembered and core 0 was not behind, by an even number |
| `MasterSystem.TwoCoreRound` | sched/master_scheduler.c:199-207 | exactly when a whole round on two cores ends, for every remembered answer; never while core 1 is donated |
| `MasterSystem.OneCoreLeft` | sched/master_scheduler.c:60-99 | with every core but one donated, that core is asked to give to itself |
| `MasterSystem.OneDonatedCore` | sched/master_scheduler.c:49-58 | at most one core is donated, and the next titanic yarn would be given the same one |
| `MasterSystem.ShiftedOk` | sched/master_scheduler.c:193-208 | a shift that ends keeps the remembered core one with a scheduler, so that it is never donated while it is remembered |
| `MasterSystem.RoundCounts` | sched/master_scheduler.c:199-208 | the counts after a round: each of two shifts takes half the excess, rounded up, from the core with the most to the core with the least |
| `MasterSystem.RoundLevelsTwo` | sched/master_scheduler.c:199-208 | on two cores a round that ends leaves the counts at most one apart |
| `MasterSystem.CoreForKeeps` | sched/master_scheduler.c:101-106 | making a core's scheduler on first use changes nobody's books |
| `AccountingStalls.LoneJobNeverMoves` | sched/master_scheduler.c:126-136 | no run of the rebalancing loop ends between a core running its only job and an empty one |
| `AccountingStalls.OneYarnLocksTwice` | sched/master_scheduler.c:199-207 | with several cores, before the first yarn is scheduled and after it, the first shift is given core 0 twice and does not end |
| `AccountingStalls.LastJobSpins` | sched/master_scheduler.c:138-213 | from the start, a run of four yarns on two round-robin cores after which the first shift goes round for ever |
| `AccountingStalls.SecondTitanicEvicts` | sched/master_scheduler.c:138-151 | from the start, with several cores, two titanic yarns are scheduled: the second has the core and the first is nowhere |
| `AccountingStalls.TitanicLocksTwice` | sched/master_scheduler.c:193-208 | on two cores, while a titanic yarn has its core, every shift is given core 0 twice |
| `MasterScheduler.Master.constructor` | sched/master_scheduler.c:26-47 | core 0 has the primary scheduler, the others none, and all counts are zero |
| `MasterScheduler.Master.SelectCoreLeastLoad` | sched/master_scheduler.c:60-82 | the first core with the fewest jobs, or the remembered answer twice more |
| `MasterScheduler.Master.SelectCoreMostLoad` | sched/master_scheduler.c:84-99 | the first core with the most jobs, donated cores apart, or core 0 when none has any |
| `MasterScheduler.Master.SchedulerForCore` | sched/master_scheduler.c:101-106 | the core's scheduler, a secondary one being made and stored on first use |
| `MasterScheduler.Master.SelectCoreUnused` | sched/master_scheduler.c:49-58 | the first core but 0 without a scheduler, or none exactly when every such core has one |
| `MasterScheduler.Master.JobHoist` | sched/master_scheduler.c:108-124 | the arrays after one hoist |
| `MasterScheduler.Master.Balance` | sched/master_scheduler.c:132-133 | the loop ends after exactly the passes needed, each a hoist |
| `MasterScheduler.Master.Rebalance` | sched/master_scheduler.c:128-136 | with two locks and enough jobs queued it ends, levels the counts, keeps every yarn and frees both locks |
| `MasterScheduler.Master.Donate` | sched/master_scheduler.c:143-151 | the core's one yarn is replaced: one has a core to itself more, one fewer if the core had been donated already |
| `MasterScheduler.Master.Schedule` | sched/master_scheduler.c:138-158 | a titanic yarn is given the first unused core, if there is one, in place of whoever has it, and nothing else changes; any other joins the least loaded core as last found |
| `MasterScheduler.Master.DoSelect` | sched/master_scheduler.c:160-165 | the core's own scheduler chooses, and no count changes |
| `MasterScheduler.Master.Unschedule` | sched/master_scheduler.c:167-181 | the yarn leaves the system and its core's count; on a donated core whoever has it leaves, whichever yarn ended |
| `MasterScheduler.Master.Reschedule` | sched/master_scheduler.c:183-191 | the yarn goes back to its core's queue; on a donated core nothing changes |
| `MasterScheduler.Master.AccountingShift` | sched/master_scheduler.c:203-208 | one shift rebalances the cores the two searches answer |
| `MasterScheduler.Master.Account` | sched/master_scheduler.c:203-208 | a round is two shifts, hoist by hoist, between the cores the searches answer |
| `MasterScheduler.Master.Select` | sched/master_scheduler.c:193-220 | when the accounting is due its time is noted and a round is made; then the core's scheduler chooses, or a donated core is given its one yarn; no yarn is lost; `MasterSystem.RoundEndsIff` says when the round ends |
| `YarnLock.StepInv` | include/yarns/sync.h:25-53 | every step of any yarn keeps the lock's invariant, whatever the sitter field holds |
| `YarnLock.RunInv` | include/yarns/sync.h:25-53 | so does every interleaving |
| `YarnLock.MutualExclusion` | include/yarns/sync.h:25-53 | at most one yarn holds the lock |
| `YarnLock.DepthCounts` | include/yarns/sync.h:28-53 | outside the lock code a yarn has unmatched calls iff the lock word names it, and depth is then their number |
| `YarnLock.UnsynchronisedTestSound` | include/yarns/sync.h:28 | the unsynchronised test succeeds if and only if the yarn holds the lock |
| `YarnLock.ReleaseExact` | include/yarns/sync.h:45-53 | the lock is released only by its owner, exactly at the matching outermost unlock |
| `LockRuns.SwapExact` | include/yarns/sync.h:36 | the swap puts the caller's pid in the word exactly when the word is 0, which is when nobody has the lock |
| `LockRuns.AlwaysObtainable` | include/yarns/sync.h:25-53 | from every state of every run, whoever has the lock, a yarn can be granted it, lock it n deep, and give it back |
| `LockRuns.DepthIsCalls` | include/yarns/sync.h:25-53 | a yarn outside the lock code has the lock exactly when it made more lock than unlock calls, and the depth is the difference |
| `RwLock.StepInv` | include/yarns/sync.h:67-141 | every step keeps the invariant while fewer than 2^30 read locks are held |
| `RwLock.RunInv` | include/yarns/sync.h:67-141 | so does every interleaving |
| `RwLock.Exclusion` | include/yarns/sync.h:67-141 | never two writers, never a reader with a writer, and the low 30 bits count the read locks |
| `RwLock.GrantedOnce` | include/yarns/sync.h:125-141 | once the write lock has been granted no lock of either kind is ever granted again |
| `RwLock.LeftWriteLocked` | include/yarns/sync.h:99-141 | from a new lock, a run that grants the write lock and gives it back leaves the word write-locked |
| `RwLock.CarryIntoBit30` | include/yarns/sync.h:82 | the read lock that makes 2^30 is exactly the one that sets the write bit |
| `RwLock.CarryReached` | include/yarns/sync.h:67-88 | from a new lock, one yarn's read locks get there with no write lock ever asked for |
| `RwGrant.BlockedStays` | include/yarns/sync.h:67-141 | a yarn that holds a read lock and is after the write lock, or after a read lock while a writer waits, stays so, and nothing is granted |
| `RwGrant.GrantReachableIff` | include/yarns/sync.h:67-141 | before the first grant, some continuation grants the write lock if and only if no yarn is blocked like that |
| `RwGrant.RunSound` | include/yarns/sync.h:67-141 | what that rests on holds at every moment of every run up to the first grant: a set bit 31 has a yarn still waiting behind it |
| `RwGrant.WriterComesOut` | include/yarns/sync.h:125-141 | whoever has the write lock can always give it back, wherever in the unlock it is and however stale what it read |
| `RwGrant.ReadsAgainBlocks` | include/yarns/sync.h:67-141 | from a new lock, a run in which a reader asks again while a writer waits, and no write lock is ever granted |
| `LittleAllocator.PageForInv` | lib/alloc.c:56-83 | a page is only left for a new one when it has live blocks |
| `LittleAllocator.StepInv` | lib/alloc.c:72-116 | every allocation, free and write keeps the heap's invariant |
| `LittleAllocator.RunInv` | lib/alloc.c:72-116 | so does every run |
| `LittleAllocator.LiveBlocksSafe` | lib/alloc.c:45-116 | after any run live blocks are pairwise disjoint, inside one owned page past its header, and never page-aligned |
| `LittleAllocator.HandedOutZero` | lib/alloc.c:72-116 | a block is all zero when handed out, after page reuse too, and overlaps no live block |
| `LittleAllocator.LiveBytesKept` | lib/alloc.c:72-116 | no operation changes another live block's bytes |
| `LittleAllocator.LiveCanBeFreed` | lib/alloc.c:92-116 | every live block can be freed through its page's header |
| `LittleAllocator.PagesReclaimed` | lib/alloc.c:92-116 | each page counts its live blocks, every inactive page has one, and there is at most one page more than live blocks |
| `LittleAllocator.AlignedOnlyWhenEmptyOnFullPage` | lib/alloc.c:189-220 | a small request gets an address yfree takes for large if and only if it is empty and the page exactly full |
| `LittleAllocator.FullPageReached` | lib/alloc.c:72-90 | requests of 2048 and 2036 bytes fill a page, and an empty one then gets the next page's address |
| `BigBook.CallKeeps` | lib/alloc.c:132-234 | every call that is answered with pages not in use keeps the book: its chained entries lie in live small blocks of their own, and every live large block is on record |
| `BigBook.HeadForever` | lib/alloc.c:132-187 | a slot's head entry is that of the first large block recorded there, for ever |
| `BigBook.LengthIs` | lib/alloc.c:159-187 | the length on record for a live large block is its own, unless the head of its slot is at its address with another |
| `BigBook.RoundedUp` | lib/alloc.c:197-198 | the length taken is the least number of whole pages that holds the request, if the sum stays in the word, and nothing for the last 4095 lengths |
| `BigBook.SlotsGoRound` | lib/alloc.c:134-136 | 256 pages in a row have 256 slots, and the next ones share them |
| `PageMap.GiveKeepsIff` | lib/alloc.c:213-234 | a give-back keeps both sides in pages of their own if and only if it returns no page of a small block still live or of another large one |
| `PageMap.StepKeeps` | lib/alloc.c:132-234 | every call that returns nothing past the end of its block keeps all blocks in pages the program has, each side in its own |
| `PageMap.RunKeeps` | lib/alloc.c:132-234 | so does every run of such calls |
| `PageMap.UnsizedIsTight` | system/pages.c:102-106 | where the length is ignored every run is one |
| `PageMap.BothSidesSafe` | lib/alloc.c:132-234 | after any such run all blocks, small and large, the client's and the book's own, are disjoint and in pages the program has, and the search for a live large block never runs off its chain |
| `PageMap.EveryByteOwn` | lib/alloc.c:189-205 | after any such run every byte a client asked for lies in pages the program has and in no other block, up to requests of 2^32 - 4096 bytes; longer ones have nothing |
| `PageMap.GivenBackWhole` | lib/alloc.c:159-234 | after any such run a large block is given back with its own length if and only if the first block of its slot was not at the same address with another length, and reaches past its end if and only if that length was greater |
| `PageMap.OnePageForTwo` | lib/alloc.c:132-234 | a run of three calls after which two pages are given back as one |
| `PageMap.TwoPagesForOne` | system/pages.c:54-60 | a run of three calls after which one page is given back as two, and a live small block lies in a page the program no longer has |
| `LittlePages.LittlePage.Wipe` | lib/alloc.c:105-107 | the page in use is emptied, zeroed past its header and keeps its count |
| `LittlePages.LittlePageAllocator.PageAllocate` | lib/alloc.c:45-54 | one fresh zeroed page becomes the active one |
| `LittlePages.LittlePageAllocator.GetLittlePage` | lib/alloc.c:56-70 | refines the choice of page |
| `LittlePages.LittlePageAllocator.LittleAlloc` | lib/alloc.c:72-90 | refines allocation on values |
| `LittlePages.LittlePageAllocator.LittleFree` | lib/alloc.c:92-116 | refines freeing on values: wipe, give back or count down |
| `LittlePages.LittlePageAllocator.FindEntry` | lib/alloc.c:165-167 | the walk ends at the first entry for the address, or at the end of the chain |
| `LittlePages.LittlePageAllocator.BigBookInsert` | lib/alloc.c:132-157 | fills an unused head, or chains an entry for which the small side is asked for 12 bytes |
| `LittlePages.LittlePageAllocator.BigBookEatLen` | lib/alloc.c:159-187 | answers the length on record; a chained entry is taken out and its 12 bytes freed, a head left as it is |
| `LittlePages.LittlePageAllocator.YAlloc` | lib/alloc.c:189-211 | up to 2048 bytes goes to the small side; more is asked for and recorded in whole pages, as few as hold it, at the address of the page call, the small side serving only the book's entry |
| `LittlePages.LittlePageAllocator.YFree` | lib/alloc.c:213-234 | an address goes to the small side if and only if it is not page-aligned; otherwise the pages given back are as many as the book says |
| `PoolBits.TopBit` | lib/pool.c:82-84 | the bit chosen is the highest one set |
| `PoolBits.ClearOne` | lib/pool.c:84-85 | the new word differs in that bit only |
| `PoolBits.AllFree` | lib/pool.c:56 | in a new subpool all 32 slots are free |
| `PoolProtocol.StepInv` | lib/pool.c:72-104 | every step of any caller, growth included, keeps free and taken slots apart and the chain laid out |
| `PoolProtocol.RunInv` | lib/pool.c:72-104 | so does every interleaving |
| `PoolProtocol.NeverTwice` | lib/pool.c:78-91 | in every interleaving no slot is handed out twice, and each success clears exactly one bit that was set |
| `PoolProtocol.BlocksNeverOverlap` | lib/pool.c:33-104 | in every interleaving, the chain growing, any two blocks handed out lie apart and each inside its pool's area |
| `PoolProtocol.OnlySuccessDelays` | lib/pool.c:86-87 | a word differs from what a caller read only if another caller took a slot of it |
| `PoolProgress.ServesItself` | lib/pool.c:72-104 | from every state, by its own steps alone, a caller gets a slot nobody has, unless it has lost the race to grow the chain |
| `PoolProgress.BeatenStays` | lib/pool.c:97-103 | one that has lost it stays so |
| `PoolLayout.BlocksInside` | lib/pool.c:33-61 | every block lies in the area laid out, past the headers, and there are at least as many as asked for |
| `PoolLayout.BlocksApart` | lib/pool.c:33-61 | two slots' blocks are disjoint |
| `PoolLayout.SlotsApart` | lib/pool.c:33-61 | so are those of two slots of a chain, in one pool or in two |
| `PoolLayout.TakenOnly` | lib/pool.c:82-86 | the swap takes a slot that was free and leaves every other as it was |
| `PoolChain.Pool.constructor` | lib/pool.c:33-61 | a new pool has all its slots free |
| `PoolChain.Pool.FirstOpen` | lib/pool.c:78-80 | the scan finds the first subpool with a free slot |
| `PoolChain.Allocate` | lib/pool.c:72-104 | takes one free slot of the first pool of the chain that has one, clears its bit only, or grows the chain by one pool |
| `PoolChain.Grow` | lib/pool.c:97-103 | the chain gets one fresh pool at its end, from which the block comes |
| `PoolChain.AllocateOne` | lib/pool.c:72-104 | one call, on the chain as a value: one slot taken, in the chain as it was or with one new pool |
| `PoolChain.AllocateEach` | lib/pool.c:72-104 | over any number of calls with separate areas, growth included, the blocks answered lie apart from each other and from those held before, each inside its pool's area |

## Left out

- Rounding of `float`, and wrap-around of virtual time, runtimes and job counts: weights are exact tenths, the rest unbounded naturals. In sched/sched_fair.c:94 the whole sum is `float`, so a returning task's key itself is rounded, not only its charge; past about 2^31 that can cost more than the 100 which `FairRuns.ReturnKey` and what rests on it rely on.
- The red-black tree under the fair scheduler (data/rbtree.cpp): a finite map with a least key, as its wrapper promises.
- Suspension, tokens and the wait graph (lib/wait_graph.c, lib/yarn.c:422-427): its search loops do not advance on a match, so there is no wake-up law to state.
- `pool_free`: it does not mirror the slot arithmetic of allocation. A caller that loses the race to grow the chain (lib/pool.c:100-102) is followed up to the lost swap only.
- The chains of the book of large blocks are sequences of entries that carry the address of their memory; the entries' own words in that memory, and lookups of addresses that were never handed out, are not modelled.
- The original priority of a hoisted job: the program hoists at normal priority, and so does the model.
- MasterScheduler.Master.Select: a due round that takes jobs from a staircase core is ruled out with those that do not end.
- Rebalancing from a staircase core, onto itself, or onto a core that has no scheduler yet: the last two end badly in the program and are ruled out by `Balanceable`; a staircase may refuse to hand jobs over while some are queued.
- Interleavings of the master scheduler: each of its operations runs alone, as its locks are meant to ensure. A core's scheduler is a value held in the array, so aliasing between cores is not modelled.
- The staircase levels hold sequences of entries rather than the segmented queue, which is verified on its own.
- Releasing schedulers, pools and yarn stacks, the pid table's bound, the system's page calls beyond which pages they answer and take back, timers, signals, preemption, context switching, the clock, and data/queue_atomic.c.
- What a yarn does between two switches is a script: the yarns it creates and the word it leaves.
- Fairness of the locks and the pool: what is stated is that a caller can be served from the state it is in, not that it will be; and that a write lock once granted blocks everything after it.
