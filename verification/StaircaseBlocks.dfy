/** The rotating staircase as a value: two blocks of twenty levels, each with a time
    budget and a queue of job entries. */
module StaircaseBlocks {
  import opened Scheduling

  const LAYERS: nat := 20

  datatype Entry = Entry(pid: nat, timeslice: nat, lastTimeslice: nat, originalLevel: nat, lastLevel: nat)

  datatype Block = Block(timeslices: seq<nat>, queues: seq<seq<Entry>>)

  datatype Staircase = Staircase(active: Block, exhausted: Block, timeslice: nat)

  predicate Shaped(b: Block) {
    |b.timeslices| == LAYERS && |b.queues| == LAYERS
  }

  predicate BothShaped(st: Staircase) {
    Shaped(st.active) && Shaped(st.exhausted)
  }

  // The first two priorities share a level.
  function StartLevel(prio: Priority): (l: nat)
    ensures l <= 8
  {
    var p := Rank(prio);
    2 * (if p > 0 then p - 1 else p)
  }

  // A less urgent priority never starts higher up, and only the first two start level.
  lemma UrgentStartsHigher(a: Priority, b: Priority)
    requires Rank(a) < Rank(b)
    ensures StartLevel(a) <= StartLevel(b)
    ensures StartLevel(a) == StartLevel(b) <==> a == Titanic && b == VeryHigh
  {
  }

  function FullBlock(ts: nat): (b: Block)
    ensures Shaped(b)
  {
    Block(seq(LAYERS, _ => ts * 5), seq(LAYERS, _ => []))
  }

  function Fresh(ts: nat): Staircase {
    Staircase(FullBlock(ts), FullBlock(ts), ts)
  }

  function Append(b: Block, l: nat, e: Entry): (b': Block)
    requires Shaped(b) && l < LAYERS
    ensures Shaped(b')
  {
    b.(queues := b.queues[l := b.queues[l] + [e]])
  }

  function TakeHead(b: Block, l: nat): (b': Block)
    requires Shaped(b) && l < LAYERS && b.queues[l] != []
    ensures Shaped(b')
  {
    b.(queues := b.queues[l := b.queues[l][1..]])
  }

  function Spend(b: Block, l: nat, used: nat): (b': Block)
    requires Shaped(b) && l < LAYERS && used <= b.timeslices[l]
    ensures Shaped(b')
  {
    b.(timeslices := b.timeslices[l := b.timeslices[l] - used])
  }

  predicate Eligible(b: Block, l: nat)
    requires Shaped(b)
  {
    l < LAYERS && b.timeslices[l] != 0 && b.queues[l] != []
  }

  /** The first level with budget and jobs, LAYERS when there is none. */
  function FirstEligible(b: Block, from: nat := 0): (l: nat)
    requires Shaped(b) && from <= LAYERS
    ensures from <= l <= LAYERS
    ensures l < LAYERS ==> Eligible(b, l)
    ensures forall i :: from <= i < l ==> !Eligible(b, i)
    decreases LAYERS - from
  {
    if from == LAYERS || Eligible(b, from) then from else FirstEligible(b, from + 1)
  }

  lemma FirstEligibleUnique(b: Block, l: nat)
    requires Shaped(b) && l <= LAYERS && (l < LAYERS ==> Eligible(b, l))
    requires forall i :: 0 <= i < l ==> !Eligible(b, i)
    ensures FirstEligible(b) == l
  {
  }

  // ---- scheduler operations ----

  function Schedule(st: Staircase, pid: nat, prio: Priority): Staircase
    requires BothShaped(st)
  {
    var l := StartLevel(prio);
    st.(active := Append(st.active, l, Entry(pid, st.timeslice, 0, l, l)))
  }

  // The time a job used is no more than it was given, and the level it ran at can pay.
  predicate CanReturn(st: Staircase, je: Entry, remaining: nat) {
    && BothShaped(st)
    && je.lastLevel < LAYERS && je.originalLevel < LAYERS
    && remaining <= je.lastTimeslice
    && je.lastTimeslice - remaining <= je.timeslice
    && je.lastTimeslice - remaining <= st.active.timeslices[je.lastLevel]
  }

  // The entry as it goes back: a job that used up its quantum climbs to its own level
  // with a fresh one, any other goes one level down.
  function Stepped(je: Entry, used: nat, ts: nat): (e: Entry)
    requires used <= je.timeslice
  {
    if je.timeslice == used then je.(lastLevel := je.originalLevel, timeslice := ts)
    else je.(timeslice := je.timeslice - used,
             lastLevel := if je.lastLevel != LAYERS - 1 then je.lastLevel + 1 else je.lastLevel)
  }

  function Reschedule(st: Staircase, je: Entry, remaining: nat): Staircase
    requires CanReturn(st, je, remaining)
  {
    var used := je.lastTimeslice - remaining;
    var e := Stepped(je, used, st.timeslice);
    st.(active := Spend(st.active, je.lastLevel, used),
        exhausted := Append(st.exhausted, e.lastLevel, e))
  }

  // A finished job is charged its whole slice.
  function Unschedule(st: Staircase, je: Entry): Staircase
    requires CanReturn(st, je, 0)
  {
    st.(active := Spend(st.active, je.lastLevel, je.lastTimeslice))
  }

  function Take(st: Staircase, l: nat): (Staircase, Entry)
    requires BothShaped(st) && l < LAYERS && st.active.queues[l] != []
  {
    var je := st.active.queues[l][0];
    (st.(active := TakeHead(st.active, l)),
     je.(lastTimeslice := Min(je.timeslice, Min(st.active.timeslices[l], st.timeslice))))
  }

  function Swapped(st: Staircase): Staircase {
    st.(active := st.exhausted, exhausted := st.active)
  }

  /** Select; `swapped` is the source's job->data == 1, set only between the swap and
      the second scan. */
  function Select(st: Staircase, swapped: bool := false): (Staircase, Option<Entry>)
    requires BothShaped(st)
    decreases !swapped
  {
    var l := FirstEligible(st.active);
    if l < LAYERS then
      var (st', je) := Take(st, l);
      (st', Some(je))
    else if swapped then (st, None)
    else Select(Swapped(st), true)
  }

  predicate Runnable(b: Block)
    requires Shaped(b)
  {
    FirstEligible(b) < LAYERS
  }

  /** Idle exactly when in both blocks every level is empty or has no budget; otherwise
      the head of the first eligible level, active block first, with a positive slice no
      longer than its quantum, its level's budget and the time slice. */
  lemma SelectExact(st: Staircase)
    requires BothShaped(st) && st.timeslice > 0
    requires forall l, i :: 0 <= l < LAYERS && 0 <= i < |st.active.queues[l]| ==> st.active.queues[l][i].timeslice > 0
    requires forall l, i :: 0 <= l < LAYERS && 0 <= i < |st.exhausted.queues[l]| ==>
               st.exhausted.queues[l][i].timeslice > 0
    ensures Select(st).1.None? <==>
              forall l :: 0 <= l < LAYERS ==> !Eligible(st.active, l) && !Eligible(st.exhausted, l)
    ensures Select(st).1.None? ==> Select(st).0 == Swapped(st)
    ensures Select(st).1.Some? ==>
              var (st', picked) := Select(st);
              var src := if Runnable(st.active) then st else Swapped(st);
              var l := FirstEligible(src.active);
              var head := src.active.queues[l][0];
              && Eligible(src.active, l)
              && picked.value == head.(lastTimeslice := picked.value.lastTimeslice)
              && 0 < picked.value.lastTimeslice <= st.timeslice
              && picked.value.lastTimeslice <= head.timeslice
              && picked.value.lastTimeslice <= src.active.timeslices[l]
              && st' == src.(active := TakeHead(src.active, l))
  {
  }
}
