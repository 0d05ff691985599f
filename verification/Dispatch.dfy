/** The dispatch loop of one core, without suspension: select a job, run it, clamp the
    time it reports, give it back or drop it. What a yarn does while it runs is a script. */
module Dispatch {
  import opened Scheduling
  import opened Schedulers
  import opened Standing

  const WORD: nat := 0x1_0000_0000
  const UNSCHEDULE: nat := WORD - 1  // ~0UL

  // How a yarn comes back to the loop.
  datatype Back =
    | Switch(runtime: nat)  // it switched out, leaving this word
    | Complete              // its routine returned

  // One turn on the core: the yarns it creates, then how it comes back.
  datatype Turn = Turn(spawns: seq<Priority>, back: Back)

  // The word yarn_yield leaves: runtime - (start - now), in 64-bit and then word arithmetic.
  function YieldRuntime(granted: nat, start: nat, now: nat): nat
    requires start <= now < 0x1_0000_0000_0000_0000
  {
    var dt := (start - now) % 0x1_0000_0000_0000_0000;
    (granted - dt) % 0x1_0000_0000_0000_0000 % WORD
  }

  function Clamp(reported: nat, granted: nat): nat { Min(reported, granted) }

  lemma WordOfSum(x: int)
    ensures x % 0x1_0000_0000_0000_0000 % WORD == x % WORD
  {
  }

  lemma WordShift(x: int, k: int)
    ensures (x + WORD * k) % WORD == x % WORD
  {
  }

  /** The elapsed time has the wrong sign, so it is added: a yield charges nothing. What is
      left after the clamp is the whole grant, and equals the time really left exactly when
      no time passed, unless the sum leaves the word. */
  lemma YieldChargesNothing(granted: nat, start: nat, now: nat)
    requires start <= now < 0x1_0000_0000_0000_0000 && granted < WORD
    ensures YieldRuntime(granted, start, now) == (granted + (now - start)) % WORD
    ensures granted + (now - start) < WORD ==>
              && Clamp(YieldRuntime(granted, start, now), granted) == granted
              && (Clamp(YieldRuntime(granted, start, now), granted) == granted - (now - start) <==> now == start)
  {
    var m := 0x1_0000_0000_0000_0000;
    var e := now - start;
    var dt := (start - now) % m;
    assert dt == if e == 0 then 0 else m - e;
    WordOfSum(granted - dt);
    assert (granted - dt) % WORD == (granted + e) % WORD by {
      if e != 0 {
        WordShift(granted + e, -(WORD as int));
      }
    }
  }

  // Every pid from lo to hi - 1 has joined, and no other.
  ghost predicate Joined(before: set<nat>, after: set<nat>, lo: nat, hi: nat) {
    forall p :: p in after <==> p in before || lo <= p < hi
  }

  // The yarns of prios are in the table, from pid lo on, and no entry has changed.
  ghost predicate Entered(table: map<nat, Priority>, lo: nat, prios: seq<Priority>, table': map<nat, Priority>) {
    && Since(table, lo, table') && (forall p :: p in table && p < lo ==> p in table')
    && (forall p :: lo <= p < lo + |prios| ==> p in table' && table'[p] == prios[p - lo])
  }

  lemma JoinedOn(seen: set<nat>, seen': set<nat>, lo: nat, hi: nat)
    requires Joined({}, seen, 1, lo) && Joined(seen, seen', lo, hi) && 1 <= lo <= hi
    ensures Joined({}, seen', 1, hi)
  {
  }

  // What the scheduler would pick; it opens where Select is named.
  ghost predicate Picks(core: Core, job: Grant, core': Core) {
    forall c {:trigger Select(c)} :: c == core ==> CoreWf(c) && CanSelect(c) && Select(c) == (core', job)
  }

  // What pid's return costs: the whole slice if it ends, otherwise what its word is short of
  // its grant.
  ghost predicate Paid(core: Core, pid: nat, granted: nat, back: Back, core': Core) {
    if Ends(back) then Ending(core, pid, core')
    else Charges(core, pid, granted - Min(back.runtime % WORD, granted), core')
  }

  // One turn of the job out: the yarns it creates join, in order, touching neither what is
  // out nor what has been charged, and then it pays.
  ghost predicate TookTurn(core: Core, pid: nat, granted: nat, lo: nat, turn: Turn, paid: Core, core': Core) {
    InOrder(core, lo, turn.spawns, paid) && Held(core, paid) && Paid(paid, pid, granted, turn.back, core')
  }

  // One pass of the loop: the job picked takes its turn, or nothing is queued to run.
  ghost predicate Passes(core: Core, lo: nat, turn: Turn, ran: nat, core': Core, lo': nat) {
    if ran == 0 then lo' == lo && exists job :: Picks(core, job, core') && job.pid == 0
    else
      && lo' == lo + |turn.spawns|
      && exists job, picked, paid ::
           Picks(core, job, picked) && job.pid == ran && TookTurn(picked, ran, job.runtime, lo, turn, paid, core')
  }

  ghost predicate AllPasses(core: Core, lo: nat, script: seq<Turn>, rans: seq<nat>, core': Core, lo': nat)
    requires |rans| == |script|
  {
    if script == [] then core' == core && lo' == lo
    else
      var n := |script| - 1;
      exists d, m :: AllPasses(core, lo, script[..n], rans[..n], d, m) && Passes(d, m, script[n], rans[n], core', lo')
  }

  // Folded: it opens where AllPasses is named.
  ghost predicate Loops(core: Core, lo: nat, script: seq<Turn>, rans: seq<nat>, core': Core, lo': nat) {
    && |rans| == |script|
    && forall d {:trigger AllPasses(core, lo, script, rans, d, lo')} :: d == core' ==>
         AllPasses(core, lo, script, rans, d, lo')
  }

  lemma LoopsOn(core: Core, lo: nat, script: seq<Turn>, n: nat, rans: seq<nat>, d: Core, m: nat,
                ran: nat, core': Core, lo': nat)
    requires n < |script| && Loops(core, lo, script[..n], rans, d, m) && Passes(d, m, script[n], ran, core', lo')
    ensures Loops(core, lo, script[..n + 1], rans + [ran], core', lo')
  {
    assert AllPasses(core, lo, script[..n], rans, d, m);
    assert script[..n + 1][..n] == script[..n] && (rans + [ran])[..n] == rans;
    assert AllPasses(core, lo, script[..n + 1], rans + [ran], core', lo');
  }

  lemma NoPasses(core: Core, lo: nat)
    ensures Loops(core, lo, [], [], core, lo)
  {
  }

  // What the loop has to tell of those passes.
  ghost function Told(script: seq<Turn>, rans: seq<nat>): seq<Trace>
    requires |rans| == |script|
  {
    if script == [] then []
    else
      var n := |script| - 1;
      Told(script[..n], rans[..n])
      + if rans[n] == 0 then [] else [Ran(rans[n])] + if Ends(script[n].back) then [Ended(rans[n])] else []
  }

  lemma ToldOn(script: seq<Turn>, n: nat, rans: seq<nat>, ran: nat)
    requires n < |script| && |rans| == n
    ensures Told(script[..n + 1], rans + [ran])
         == Told(script[..n], rans)
            + if ran == 0 then [] else [Ran(ran)] + if Ends(script[n].back) then [Ended(ran)] else []
  {
    assert script[..n + 1][..n] == script[..n] && (rans + [ran])[..n] == rans;
  }

  /** A yield within the word costs nothing, however long the yarn ran. */
  lemma YieldCostsNothing(granted: nat, start: nat, now: nat)
    requires start <= now < 0x1_0000_0000_0000_0000 && granted + (now - start) < WORD
    ensures granted - Min(YieldRuntime(granted, start, now) % WORD, granted) == 0
  {
    YieldChargesNothing(granted, start, now);
  }

  /** The books of a core with `out` outstanding: every yarn scheduled and not finished is
      in exactly one place, and the pid table knows it. */
  ghost predicate Consistent(core: Core, finished: set<nat>, known: set<nat>, maxpid: nat, out: multiset<nat>) {
    && CoreWf(core)
    && Out(core) == out
    && finished <= Seen(core)
    && Queued(core) + out == multiset(Seen(core) - finished)
    && Seen(core) - finished <= known
    && 0 < maxpid
    && forall p :: p in Seen(core) ==> p < maxpid
  }

  // Every yarn scheduled and not finished has the standing of its priority in the pid table.
  ghost predicate AllRanked(core: Core, finished: set<nat>, table: map<nat, Priority>) {
    forall p :: p in Seen(core) && p !in finished ==> p in table && Stands(core, p, table[p])
  }

  // The same, folded: it opens where AllRanked is named.
  ghost predicate Ranked(core: Core, finished: set<nat>, table: map<nat, Priority>) {
    forall c {:trigger AllRanked(c, finished, table)} :: c == core ==> AllRanked(c, finished, table)
  }

  lemma TableGrows(core: Core, finished: set<nat>, table: map<nat, Priority>, pid: nat, prio: Priority)
    requires Ranked(core, finished, table) && pid !in Seen(core)
    ensures Ranked(core, finished, table[pid := prio])
  {
    assert AllRanked(core, finished, table);
    assert AllRanked(core, finished, table[pid := prio]);
  }

  lemma TableShrinks(core: Core, finished: set<nat>, table: map<nat, Priority>, pid: nat)
    requires Ranked(core, finished, table) && pid in finished
    ensures Ranked(core, finished, table - {pid})
  {
    assert AllRanked(core, finished, table);
    assert AllRanked(core, finished, table - {pid});
  }

  // The priorities of pids 1 to n.
  function Listed(table: map<nat, Priority>, n: nat): seq<Priority> {
    seq(n, k => if k + 1 in table then table[k + 1] else Normal)
  }

  lemma OneMore(was: Core, table: map<nat, Priority>, i: nat, before: Core, after: Core)
    requires i > 0 && i in table && InOrder(was, 1, Listed(table, i - 1), before) && Joins(before, i, table[i], after)
    ensures InOrder(was, 1, Listed(table, i), after)
  {
    assert Listed(table, i) == Listed(table, i - 1) + [table[i]];
    LastInOrder(was, 1, Listed(table, i - 1), before, table[i], after);
  }

  lemma NoneListed(core: Core, table: map<nat, Priority>)
    ensures InOrder(core, 1, Listed(table, 0), core)
  {
    assert Listed(table, 0) == [];
    NoneInOrder(core, 1);
  }

  // No entry below lo is new or has changed.
  ghost predicate Since(table: map<nat, Priority>, lo: nat, table': map<nat, Priority>) {
    forall p :: p in table' && p < lo ==> p in table && table'[p] == table[p]
  }

  lemma SinceThrough(table: map<nat, Priority>, lo: nat, between: map<nat, Priority>, hi: nat,
                     table': map<nat, Priority>)
    requires Since(table, lo, between) && Since(between, hi, table') && lo <= hi
    ensures Since(table, lo, table')
  {
  }

  lemma FirstEntered(table: map<nat, Priority>, lo: nat, prios: seq<Priority>, table': map<nat, Priority>)
    requires prios != [] && Entered(table[lo := prios[0]], lo + 1, prios[1..], table')
    ensures Entered(table, lo, prios, table')
  {
    var between := table[lo := prios[0]];
    assert lo in between;
    forall p | lo < p < lo + |prios| ensures p in table' && table'[p] == prios[p - lo] {
      assert table'[p] == prios[1..][p - (lo + 1)];
    }
    forall p | p in table && p < lo ensures p in table' {
      assert p in between;
    }
  }

  lemma StillListed(prios: seq<Priority>, table: map<nat, Priority>, table': map<nat, Priority>)
    requires Entered(map[], 1, prios, table) && Since(table, |prios| + 1, table')
    ensures forall p :: 1 <= p <= |prios| && p in table' ==> table'[p] == prios[p - 1]
  {
  }

  lemma AllQueued(core: Core, known: set<nat>, maxpid: nat)
    requires Consistent(core, {}, known, maxpid, multiset{})
    ensures Queued(core) == multiset(Seen(core))
  {
    assert Seen(core) - {} == Seen(core);
    assert Queued(core) + multiset{} == Queued(core);
  }

  lemma SpawnRanks(core: Core, finished: set<nat>, table: map<nat, Priority>, pid: nat)
    requires CoreWf(core) && pid > 0 && pid !in Seen(core) && pid in table && Ranked(core, finished, table)
    ensures Ranked(Schedule(core, pid, table[pid]), finished, table)
  {
    assert AllRanked(core, finished, table);
    var core' := Schedule(core, pid, table[pid]);
    ScheduleContract(core, pid, table[pid]);
    forall p | p in Seen(core') && p !in finished ensures p in table && Stands(core', p, table[p]) {
      ScheduleStands(core, pid, table[pid], p, table[p]);
    }
    assert AllRanked(core', finished, table);
  }

  lemma PickRanks(core: Core, finished: set<nat>, table: map<nat, Priority>)
    requires CoreWf(core) && CanSelect(core) && Ranked(core, finished, table)
    ensures Ranked(Select(core).0, finished, table)
  {
    assert AllRanked(core, finished, table);
    SelectContract(core);
    forall p | p in Seen(core) && p !in finished ensures Stands(Select(core).0, p, table[p]) {
      SelectStands(core, p, table[p]);
    }
    assert AllRanked(Select(core).0, finished, table);
  }

  lemma BackRanks(core: Core, finished: set<nat>, table: map<nat, Priority>, pid: nat, left: nat)
    requires IsOut(core, pid) && left <= Granted(core, pid) && Ranked(core, finished, table)
    ensures Ranked(Reschedule(core, pid, left), finished, table)
  {
    assert AllRanked(core, finished, table);
    RescheduleContract(core, pid, left);
    forall p | p in Seen(core) && p !in finished ensures Stands(Reschedule(core, pid, left), p, table[p]) {
      RescheduleStands(core, pid, left, p, table[p]);
    }
    assert AllRanked(Reschedule(core, pid, left), finished, table);
  }

  lemma EndRanks(core: Core, finished: set<nat>, table: map<nat, Priority>, pid: nat)
    requires IsOut(core, pid) && Ranked(core, finished, table)
    ensures Ranked(Unschedule(core, pid), finished + {pid}, table)
  {
    assert AllRanked(core, finished, table);
    UnscheduleContract(core, pid);
    forall p | p in Seen(core) && p !in finished + {pid} ensures Stands(Unschedule(core, pid), p, table[p]) {
      UnscheduleStands(core, pid, p, table[p]);
    }
    assert AllRanked(Unschedule(core, pid), finished + {pid}, table);
  }

  // A new entry in the pid table, not yet scheduled.
  lemma InsertKeeps(core: Core, finished: set<nat>, known: set<nat>, maxpid: nat, out: multiset<nat>)
    requires Consistent(core, finished, known, maxpid, out)
    ensures Consistent(core, finished, known + {maxpid}, maxpid + 1, out) && maxpid !in Seen(core)
  {
  }

  lemma SpawnKeeps(core: Core, finished: set<nat>, known: set<nat>, maxpid: nat, out: multiset<nat>,
                   pid: nat, prio: Priority)
    requires Consistent(core, finished, known, maxpid, out)
    requires 0 < pid < maxpid && pid in known && pid !in Seen(core)
    ensures var core' := Schedule(core, pid, prio);
            && Consistent(core', finished, known, maxpid, out)
            && Seen(core') == Seen(core) + {pid}
            && (forall p :: p in out ==> Granted(core', p) == Granted(core, p))
  {
    ScheduleContract(core, pid, prio);
    SpawnSets(Queued(core), out, Seen(core), finished, pid);
  }

  lemma SpawnSets(queued: multiset<nat>, out: multiset<nat>, seen: set<nat>, finished: set<nat>, pid: nat)
    requires queued + out == multiset(seen - finished) && pid !in seen && finished <= seen
    ensures queued + multiset{pid} + out == multiset(seen + {pid} - finished)
  {
    MultisetAdd(seen - finished, pid);
    assert seen + {pid} - finished == seen - finished + {pid};
    assert queued + multiset{pid} + out == queued + out + multiset{pid};
  }

  lemma PickKeeps(core: Core, finished: set<nat>, known: set<nat>, maxpid: nat)
    requires Consistent(core, finished, known, maxpid, multiset{})
    ensures CanSelect(core)
    ensures var (core', g) := Select(core);
            && Seen(core') == Seen(core)
            && (g.pid == 0 ==> Consistent(core', finished, known, maxpid, multiset{}))
            && (g.pid != 0 ==>
                  && Consistent(core', finished, known, maxpid, multiset{g.pid})
                  && g.pid in Seen(core) - finished && g.pid < maxpid && g.pid in known
                  && Granted(core', g.pid) == g.runtime)
  {
    NothingOut(core);
    SelectContract(core);
    var g := Select(core).1;
    if g.pid != 0 {
      assert g.pid in multiset(Seen(core) - finished);
    }
  }

  lemma BackKeeps(core: Core, finished: set<nat>, known: set<nat>, maxpid: nat, pid: nat, left: nat)
    requires Consistent(core, finished, known, maxpid, multiset{pid}) && left <= Granted(core, pid)
    ensures IsOut(core, pid)
    ensures Consistent(Reschedule(core, pid, left), finished, known, maxpid, multiset{})
    ensures Seen(Reschedule(core, pid, left)) == Seen(core)
  {
    RescheduleContract(core, pid, left);
  }

  lemma EndKeeps(core: Core, finished: set<nat>, known: set<nat>, maxpid: nat, pid: nat)
    requires Consistent(core, finished, known, maxpid, multiset{pid})
    ensures IsOut(core, pid) && pid in Seen(core)
    ensures Consistent(Unschedule(core, pid), finished + {pid}, known - {pid}, maxpid, multiset{})
    ensures Consistent(Unschedule(core, pid), finished + {pid}, known, maxpid, multiset{})
    ensures Seen(Unschedule(core, pid)) == Seen(core)
  {
    UnscheduleContract(core, pid);
    EndSets(Queued(core), Seen(core), finished, pid);
  }

  lemma EndSets(queued: multiset<nat>, seen: set<nat>, finished: set<nat>, pid: nat)
    requires queued + multiset{pid} == multiset(seen - finished)
    ensures pid in seen && pid !in finished
    ensures queued == multiset(seen - (finished + {pid}))
  {
    var alive := seen - finished;
    assert pid in multiset(alive);
    MultisetAdd(alive - {pid}, pid);
    assert alive - {pid} + {pid} == alive;
    CancelOne(queued, multiset(alive - {pid}), pid);
    assert seen - (finished + {pid}) == alive - {pid};
  }

  lemma CancelOne(a: multiset<nat>, b: multiset<nat>, p: nat)
    requires a + multiset{p} == b + multiset{p}
    ensures a == b
  {
    assert a == a + multiset{p} - multiset{p};
  }

  // The scheduler calls themselves, with what they keep.

  method ScheduleNew(core: Core, ghost finished: set<nat>, ghost table: map<nat, Priority>, ghost maxpid: nat,
                     ghost out: multiset<nat>, pid: nat, prio: Priority) returns (core': Core)
    requires Consistent(core, finished, table.Keys, maxpid, out) && Ranked(core, finished, table)
    requires 0 < pid < maxpid && pid in table && table[pid] == prio && pid !in Seen(core)
    ensures Consistent(core', finished, table.Keys, maxpid, out) && Ranked(core', finished, table)
    ensures Seen(core') == Seen(core) + {pid} && Joins(core, pid, prio, core') && Held(core, core')
    ensures forall p :: p in out ==> Granted(core', p) == Granted(core, p)
  {
    SpawnKeeps(core, finished, table.Keys, maxpid, out, pid, prio);
    SpawnRanks(core, finished, table, pid);
    ScheduleJoins(core, pid, prio);
    ScheduleHolds(core, pid, prio);
    core' := Schedule(core, pid, prio);
  }

  method ScheduleBack(core: Core, ghost finished: set<nat>, ghost table: map<nat, Priority>, ghost maxpid: nat,
                      pid: nat, left: nat) returns (core': Core)
    requires Consistent(core, finished, table.Keys, maxpid, multiset{pid}) && left <= Granted(core, pid)
    requires Ranked(core, finished, table)
    ensures Consistent(core', finished, table.Keys, maxpid, multiset{}) && Ranked(core', finished, table)
    ensures Seen(core') == Seen(core) && Charges(core, pid, Granted(core, pid) - left, core')
  {
    BackKeeps(core, finished, table.Keys, maxpid, pid, left);
    BackRanks(core, finished, table, pid, left);
    RescheduleCharges(core, pid, left);
    core' := Reschedule(core, pid, left);
  }

  method ScheduleEnd(core: Core, ghost finished: set<nat>, ghost table: map<nat, Priority>, ghost maxpid: nat, pid: nat)
    returns (core': Core)
    requires Consistent(core, finished, table.Keys, maxpid, multiset{pid}) && Ranked(core, finished, table)
    ensures Consistent(core', finished + {pid}, table.Keys, maxpid, multiset{})
    ensures Ranked(core', finished + {pid}, table) && Seen(core') == Seen(core) && Ending(core, pid, core')
  {
    EndKeeps(core, finished, table.Keys, maxpid, pid);
    EndRanks(core, finished, table, pid);
    UnscheduleEnds(core, pid);
    core' := Unschedule(core, pid);
  }

  // What the loop did, in order.
  datatype Trace = Ran(pid: nat) | Ended(pid: nat)

  // Once a pid has ended it never runs again.
  ghost predicate Faithful(trace: seq<Trace>, finished: set<nat>) {
    && (forall i, j :: 0 <= i < j < |trace| && trace[i].Ended? ==> trace[j] != Ran(trace[i].pid))
    && (forall i :: 0 <= i < |trace| && trace[i].Ended? ==> trace[i].pid in finished)
  }

  class YarnProcessor {
    var core: Core
    var maxpid: nat
    var ptable: map<nat, Priority>    // the live entries of the pid table
    var live: bool                    // the scheduler has been started
    ghost var finished: set<nat>
    ghost var trace: seq<Trace>

    // Folded: it opens where the books of this core are named.
    ghost predicate Books(out: multiset<nat>)
      reads this
    {
      && (forall c {:trigger Consistent(c, finished, ptable.Keys, maxpid, out)} :: c == core ==>
            Consistent(c, finished, ptable.Keys, maxpid, out))
      && Ranked(core, finished, ptable)
    }

    // Started: every pid given out has been scheduled.
    ghost predicate Valid()
      reads this
    {
      Books(multiset{}) && Faithful(trace, finished) && live && 1 <= maxpid && Joined({}, Seen(core), 1, maxpid)
    }

    // Not started: yarns have been created, none has been scheduled.
    ghost predicate Waiting()
      reads this
    {
      && Books(multiset{}) && !live && 1 <= maxpid && Seen(core) == {} && finished == {} && trace == []
      && forall p :: p in ptable <==> 1 <= p < maxpid
    }

    constructor (core: Core)
      requires CoreWf(core) && Seen(core) == {} && Queued(core) == Out(core) == multiset{}
      ensures Waiting() && this.core == core && maxpid == 1
    {
      this.core, maxpid, ptable, live, finished, trace := core, 1, map[], false, {}, [];
    }

    method ListInsert(prio: Priority, ghost out: multiset<nat>) returns (pid: nat)
      requires Books(out)
      modifies this`maxpid, this`ptable
      ensures Books(out) && pid == old(maxpid) && maxpid == pid + 1 && pid > 0 && pid !in Seen(core)
      ensures ptable == old(ptable)[pid := prio]
    {
      pid := maxpid;
      InsertKeeps(core, finished, ptable.Keys, maxpid, out);
      TableGrows(core, finished, ptable, maxpid, prio);
      assert ptable[pid := prio].Keys == ptable.Keys + {pid};
      maxpid := maxpid + 1;
      ptable := ptable[pid := prio];
    }

    // list_insert, and once the scheduler is started its schedule, whatever is out.
    method YarnNew(prio: Priority, ghost out: multiset<nat>)
      requires Books(out)
      modifies this`core, this`maxpid, this`ptable
      ensures Books(out) && maxpid == old(maxpid) + 1 && ptable == old(ptable)[old(maxpid) := prio]
      ensures Seen(core) == old(Seen(core)) + if live then {old(maxpid)} else {}
      ensures if live then Joins(old(core), old(maxpid), prio, core) else core == old(core)
      ensures Held(old(core), core) && forall p :: p in out ==> Granted(core, p) == old(Granted(core, p))
    {
      HeldNow(core);
      var pid := ListInsert(prio, out);
      if live {
        core := ScheduleNew(core, finished, ptable, maxpid, out, pid, prio);
      }
    }

    method YarnsNew(prios: seq<Priority>, ghost out: multiset<nat>)
      requires Books(out) && live
      modifies this`core, this`maxpid, this`ptable
      ensures Books(out) && maxpid == old(maxpid) + |prios|
      ensures Joined(old(Seen(core)), Seen(core), old(maxpid), maxpid)
      ensures Entered(old(ptable), old(maxpid), prios, ptable)
      ensures InOrder(old(core), old(maxpid), prios, core) && Held(old(core), core)
      ensures forall p :: p in out ==> Granted(core, p) == old(Granted(core, p))
      decreases |prios|
    {
      HeldNow(core);
      NoneInOrder(core, maxpid);
      if prios != [] {
        ghost var before, lo, table := core, maxpid, ptable;
        YarnNew(prios[0], out);
        ghost var between := core;
        YarnsNew(prios[1..], out);
        HeldThrough(before, between, core);
        FirstInOrder(before, lo, prios, between, core);
        FirstEntered(table, lo, prios, ptable);
      }
    }

    method Created(prio: Priority)
      requires Waiting()
      modifies this`core, this`maxpid, this`ptable
      ensures Waiting() && maxpid == old(maxpid) + 1 && core == old(core)
      ensures ptable == old(ptable)[old(maxpid) := prio]
    {
      YarnNew(prio, multiset{});
      assert forall p :: p in ptable <==> p in old(ptable) || p == old(maxpid);
    }

    // Yarns created before the scheduler is started only enter the pid table.
    method Prepare(prios: seq<Priority>)
      requires Waiting()
      modifies this`core, this`maxpid, this`ptable
      ensures Waiting() && maxpid == old(maxpid) + |prios| && core == old(core)
      ensures Entered(old(ptable), old(maxpid), prios, ptable)
      decreases |prios|
    {
      if prios != [] {
        ghost var table, lo := ptable, maxpid;
        Created(prios[0]);
        Prepare(prios[1..]);
        FirstEntered(table, lo, prios, ptable);
      }
    }

    // The pids below i have been scheduled, in order.
    ghost predicate Starting(was: Core, i: nat)
      reads this
    {
      && Books(multiset{}) && finished == {} && 1 <= i <= maxpid && Joined({}, Seen(core), 1, i)
      && (forall p :: 1 <= p < maxpid ==> p in ptable) && InOrder(was, 1, Listed(ptable, i - 1), core)
    }

    method ScheduleNext(ghost was: Core, i: nat)
      requires Starting(was, i) && i < maxpid
      modifies this`core
      ensures Starting(was, i + 1)
    {
      ghost var before := core;
      core := ScheduleNew(core, finished, ptable, maxpid, multiset{}, i, ptable[i]);
      OneMore(was, ptable, i, before, core);
    }

    /** Starting: every yarn in the pid table is scheduled with its priority, in order, and
        none is missed. */
    method Launch()
      requires Waiting()
      modifies this`core, this`live
      ensures Valid() && Queued(core) == multiset(Seen(core)) && InOrder(old(core), 1, Listed(ptable, maxpid - 1), core)
    {
      NoneListed(core, ptable);
      var i := 1;
      while i < maxpid
        invariant Starting(old(core), i)
      {
        ScheduleNext(old(core), i);
        i := i + 1;
      }
      live := true;
      assert Consistent(core, {}, ptable.Keys, maxpid, multiset{});
      AllQueued(core, ptable.Keys, maxpid);
    }

    // Back in the queue with what the clamp leaves of its slice.
    method Requeue(pid: nat, left: nat)
      requires Books(multiset{pid}) && left <= Granted(core, pid)
      modifies this`core
      ensures Books(multiset{}) && Seen(core) == old(Seen(core))
      ensures Charges(old(core), pid, Granted(old(core), pid) - left, core)
    {
      core := ScheduleBack(core, finished, ptable, maxpid, pid, left);
    }

    // A yarn whose routine returned has cleared its own entry in the pid table.
    method Drop(pid: nat, cleared: bool)
      requires Books(multiset{pid})
      modifies this`core, this`ptable, this`finished
      ensures Books(multiset{}) && Seen(core) == old(Seen(core)) && finished == old(finished) + {pid}
      ensures Ending(old(core), pid, core) && ptable == if cleared then old(ptable) - {pid} else old(ptable)
    {
      core := ScheduleEnd(core, finished, ptable, maxpid, pid);
      finished := finished + {pid};
      if cleared {
        Clear(pid);
      }
    }

    method Clear(pid: nat)
      requires Books(multiset{}) && pid in finished
      modifies this`ptable
      ensures Books(multiset{}) && ptable == old(ptable) - {pid}
    {
      assert Consistent(core, finished, ptable.Keys, maxpid, multiset{});
      assert (ptable - {pid}).Keys == ptable.Keys - {pid};
      TableShrinks(core, finished, ptable, pid);
      ptable := ptable - {pid};
    }

    /** A yarn that leaves a word is charged exactly what the word is short of its grant, and
        the rest is queued again; one that ends is not. */
    method GiveBack(pid: nat, granted: nat, back: Back)
      requires Books(multiset{pid}) && granted == Granted(core, pid)
      modifies this`core, this`ptable, this`finished
      ensures Books(multiset{}) && Seen(core) == old(Seen(core))
      ensures finished == old(finished) + (if Ends(back) then {pid} else {})
      ensures Paid(old(core), pid, granted, back, core)
      ensures ptable == if back.Complete? then old(ptable) - {pid} else old(ptable)
    {
      var ttdRuntime := if back.Complete? then UNSCHEDULE else back.runtime % WORD;
      if ttdRuntime == UNSCHEDULE {
        Drop(pid, back.Complete?);
      } else {
        Requeue(pid, Clamp(ttdRuntime, granted));
      }
    }

    // The selected job runs: its yarns join, and it goes back or ends. `paid` is the
    // scheduler in between.
    method TakeTurn(pid: nat, granted: nat, turn: Turn) returns (ghost paid: Core)
      requires Books(multiset{pid}) && granted == Granted(core, pid) && live
      modifies this`core, this`maxpid, this`ptable, this`finished
      ensures Books(multiset{})
      ensures Joined(old(Seen(core)), Seen(core), old(maxpid), maxpid) && maxpid == old(maxpid) + |turn.spawns|
      ensures finished == old(finished) + (if Ends(turn.back) then {pid} else {})
      ensures TookTurn(old(core), pid, granted, old(maxpid), turn, paid, core)
      ensures Since(old(ptable), old(maxpid), ptable)
    {
      YarnsNew(turn.spawns, multiset{pid});
      paid := core;
      GiveBack(pid, granted, turn.back);
    }

    method Note(pid: nat, ends: bool)
      modifies this`trace
      ensures trace == old(trace) + [Ran(pid)] + (if ends then [Ended(pid)] else [])
    {
      trace := trace + [Ran(pid)] + if ends then [Ended(pid)] else [];
    }

    // The selected job runs its turn, and the trace says so.
    method RunJob(pid: nat, granted: nat, turn: Turn) returns (ghost paid: Core)
      requires Books(multiset{pid}) && granted == Granted(core, pid)
      requires pid !in finished && Faithful(trace, finished)
      requires live && 1 <= maxpid && Joined({}, Seen(core), 1, maxpid)
      modifies this
      ensures Valid()
      ensures Joined(old(Seen(core)), Seen(core), old(maxpid), maxpid) && maxpid == old(maxpid) + |turn.spawns|
      ensures finished == old(finished) + (if Ends(turn.back) then {pid} else {})
      ensures trace == old(trace) + [Ran(pid)] + (if Ends(turn.back) then [Ended(pid)] else [])
      ensures TookTurn(old(core), pid, granted, old(maxpid), turn, paid, core)
      ensures Since(old(ptable), old(maxpid), ptable)
    {
      TraceKeeps(trace, finished, pid, Ends(turn.back));
      ghost var seen, from := Seen(core), maxpid;
      paid := TakeTurn(pid, granted, turn);
      Note(pid, Ends(turn.back));
      JoinedOn(seen, Seen(core), from, maxpid);
    }

    // The scheduler's choice goes out.
    method Pick() returns (job: Grant)
      requires Books(multiset{})
      modifies this`core
      ensures Picks(old(core), job, core) && Seen(core) == old(Seen(core))
      ensures job.pid == 0 ==> Books(multiset{})
      ensures job.pid != 0 ==>
                && Books(multiset{job.pid}) && job.runtime == Granted(core, job.pid)
                && job.pid in Seen(core) - finished && job.pid < maxpid && job.pid in ptable
    {
      PickKeeps(core, finished, ptable.Keys, maxpid);
      PickRanks(core, finished, ptable);
      core, job := Select(core).0, Select(core).1;
    }

    /** One pass of the loop. It runs the job the scheduler picks: the tests for a pid out
        of range or no longer in the table never drop one. A job that ends is forgotten,
        any other is queued again, charged what its word is short of its grant. */
    method Iterate(turn: Turn) returns (ran: nat)
      requires Valid()
      modifies this
      ensures Valid()
      ensures Passes(old(core), old(maxpid), turn, ran, core, maxpid)
      ensures Since(old(ptable), old(maxpid), ptable) && old(maxpid) <= maxpid
      ensures ran == 0 ==> Seen(core) == old(Seen(core)) && maxpid == old(maxpid)
                           && finished == old(finished) && trace == old(trace)
      ensures ran != 0 ==>
                && ran in old(Seen(core) - finished)
                && Joined(old(Seen(core)), Seen(core), old(maxpid), maxpid)
                && maxpid == old(maxpid) + |turn.spawns|
                && finished == old(finished) + (if Ends(turn.back) then {ran} else {})
                && trace == old(trace) + [Ran(ran)] + (if Ends(turn.back) then [Ended(ran)] else [])
    {
      var activeJob := Pick();
      ran := activeJob.pid;
      ghost var picked := core;
      if ran == 0 {
        return;
      }
      if ran >= maxpid {
        assert false;
        return;
      }
      if ran !in ptable {
        assert false;
        return;
      }
      ghost var paid := RunJob(ran, activeJob.runtime, turn);
      assert TookTurn(picked, ran, activeJob.runtime, old(maxpid), turn, paid, core);
    }

    /** Whole runs: one pass for each turn of the script, whatever the scheduler picks taking
        it, so that every pid given out so far has finished or is queued, once, and none runs
        after it ended. */
    method Process(script: seq<Turn>) returns (ghost rans: seq<nat>)
      requires Valid()
      modifies this
      ensures Valid() && old(finished) <= finished && old(maxpid) <= maxpid
      ensures Loops(old(core), old(maxpid), script, rans, core, maxpid)
      ensures |rans| == |script| && trace == old(trace) + Told(script, rans)
      ensures Since(old(ptable), old(maxpid), ptable)
      ensures Queued(core) == multiset(Seen(core) - finished)
      ensures forall p :: 1 <= p < maxpid ==> Queued(core)[p] == if p in finished then 0 else 1
      ensures forall p :: 1 <= p < maxpid && p !in finished ==> p in ptable && Stands(core, p, ptable[p])
    {
      var i := 0;
      rans := [];
      NoPasses(core, maxpid);
      assert script[..0] == [];
      while i < |script|
        invariant i <= |script| && |rans| == i
        invariant Valid() && old(finished) <= finished && old(maxpid) <= maxpid
        invariant Since(old(ptable), old(maxpid), ptable)
        invariant Loops(old(core), old(maxpid), script[..i], rans, core, maxpid)
        invariant trace == old(trace) + Told(script[..i], rans)
      {
        rans := Pass(old(core), old(maxpid), old(ptable), old(trace), script, i, rans);
        i := i + 1;
      }
      assert script[..i] == script;
      assert Consistent(core, finished, ptable.Keys, maxpid, multiset{});
      EachOnce(Queued(core), Seen(core), finished, maxpid);
      assert AllRanked(core, finished, ptable);
    }

    // The pass for turn i of the script.
    method Pass(ghost was: Core, ghost lo: nat, ghost table: map<nat, Priority>, ghost told: seq<Trace>,
                script: seq<Turn>, i: nat, ghost rans: seq<nat>) returns (ghost rans': seq<nat>)
      requires Valid() && i < |script| && |rans| == i && lo <= maxpid && Since(table, lo, ptable)
      requires Loops(was, lo, script[..i], rans, core, maxpid) && trace == told + Told(script[..i], rans)
      modifies this
      ensures Valid() && old(finished) <= finished && old(maxpid) <= maxpid && Since(table, lo, ptable)
      ensures |rans'| == i + 1 && Loops(was, lo, script[..i + 1], rans', core, maxpid)
      ensures trace == told + Told(script[..i + 1], rans')
    {
      ghost var core0, maxpid0, table0 := core, maxpid, ptable;
      var ran := Iterate(script[i]);
      SinceThrough(table, lo, table0, maxpid0, ptable);
      LoopsOn(was, lo, script, i, rans, core0, maxpid0, ran, core, maxpid);
      ToldOn(script, i, rans, ran);
      rans' := rans + [ran];
    }
  }

  /** The program from its start: yarns are created, the scheduler is started, the loop runs
      for as long as it likes. At the end every yarn ever created, at first or by another,
      has finished or is queued exactly once, none ran after it ended, and those alive have the
      standing of the priority they were created with. */
  method YarnProcess(core: Core, prios: seq<Priority>, script: seq<Turn>)
    returns (p: YarnProcessor, ghost start: Core, ghost rans: seq<nat>)
    requires CoreWf(core) && Seen(core) == {} && Queued(core) == Out(core) == multiset{}
    ensures fresh(p) && p.Valid() && p.maxpid > |prios|
    ensures forall pid :: 1 <= pid < p.maxpid ==> Queued(p.core)[pid] == if pid in p.finished then 0 else 1
    ensures Faithful(p.trace, p.finished)
    ensures InOrder(core, 1, prios, start) && Loops(start, |prios| + 1, script, rans, p.core, p.maxpid)
    ensures |rans| == |script| && p.trace == Told(script, rans)
    ensures forall pid :: 1 <= pid < p.maxpid && pid !in p.finished ==>
              pid in p.ptable && Stands(p.core, pid, p.ptable[pid])
    ensures forall pid :: 1 <= pid <= |prios| && pid in p.ptable ==> p.ptable[pid] == prios[pid - 1]
  {
    p := new YarnProcessor(core);
    p.Prepare(prios);
    p.Launch();
    start := p.core;
    assert Listed(p.ptable, |prios|) == prios;
    ghost var table := p.ptable;
    rans := p.Process(script);
    StillListed(prios, table, p.ptable);
  }

  lemma EachOnce(queued: multiset<nat>, seen: set<nat>, finished: set<nat>, maxpid: nat)
    requires queued + multiset{} == multiset(seen - finished) && Joined({}, seen, 1, maxpid)
    ensures queued == multiset(seen - finished)
    ensures forall p :: 1 <= p < maxpid ==> queued[p] == if p in finished then 0 else 1
  {
    assert queued + multiset{} == queued;
    forall p | 1 <= p < maxpid ensures queued[p] == if p in finished then 0 else 1 {
      assert p in seen;
    }
  }

  lemma TraceKeeps(trace: seq<Trace>, finished: set<nat>, pid: nat, ends: bool)
    requires Faithful(trace, finished) && pid !in finished
    ensures Faithful(trace + [Ran(pid)] + (if ends then [Ended(pid)] else []), finished + if ends then {pid} else {})
  {
  }

  predicate Ends(back: Back) {
    back.Complete? || back.runtime % WORD == UNSCHEDULE
  }
}
