/** All cores together: which core takes a new yarn, which gives jobs away, and what the
    job counts mean. Values only; MasterScheduler keeps them in arrays. */
module MasterSystem {
  import opened Scheduling
  import opened Schedulers
  import opened Balancer

  const NONE: nat := 0xFFFF_FFFF  // ~0UL

  // ---- choosing a core ----

  ghost predicate IsFirstLeast(counts: seq<nat>, i: nat) {
    && i < |counts|
    && (forall j :: 0 <= j < |counts| ==> counts[i] <= counts[j])
    && (forall j :: 0 <= j < i ==> counts[i] < counts[j])
  }

  function Zeros(n: nat): seq<nat> { seq(n, _ => 0) }

  // The core asked to give: the first with the highest count, donated cores apart; core 0
  // when there is none with a job.
  ghost predicate IsFirstMost(counts: seq<nat>, singles: seq<nat>, i: nat)
    requires |singles| == |counts|
  {
    && i < |counts|
    && (forall j :: 0 <= j < |counts| && singles[j] == 0 ==> counts[j] <= counts[i])
    && (forall j :: 0 <= j < i && singles[j] == 0 ==> counts[j] < counts[i])
    && (singles[i] != 0 || counts[i] == 0 ==>
          i == 0 && forall j :: 0 <= j < |counts| && singles[j] == 0 ==> counts[j] == 0)
  }

  ghost predicate Below(counts: seq<nat>, bound: nat) {
    forall c :: 0 <= c < |counts| ==> counts[c] < bound
  }

  // What the searches see of the counts: a donated core looks full.
  ghost function Shown(counts: seq<nat>, alone: seq<nat>): (r: seq<nat>)
    requires |alone| == |counts|
    ensures |r| == |counts|
  {
    seq(|counts|, c requires 0 <= c < |counts| => if alone[c] != 0 then NONE else counts[c])
  }

  // What both searches answer while core 0 is not donated is a core that is not.
  lemma ChosenUndonated(counts: seq<nat>, alone: seq<nat>, c: nat)
    requires |alone| == |counts| && |counts| > 0 && alone[0] == 0 && counts[0] < NONE
    requires IsFirstMost(Shown(counts, alone), alone, c) || IsFirstLeast(Shown(counts, alone), c)
    ensures c < |counts| && alone[c] == 0
  {
    assert Shown(counts, alone)[0] == counts[0];
  }

  /** The two choices fall on one core exactly when every core not donated has the same
      count. */
  lemma SameCoreIff(counts: seq<nat>, alone: seq<nat>, most: nat, least: nat)
    requires |alone| == |counts| && |counts| > 0 && alone[0] == 0 && Below(counts, NONE)
    requires IsFirstLeast(Shown(counts, alone), least) && IsFirstMost(Shown(counts, alone), alone, most)
    ensures most == least <==>
            forall i, j :: 0 <= i < |counts| && 0 <= j < |counts| && alone[i] == alone[j] == 0 ==>
              counts[i] == counts[j]
  {
    var shown := Shown(counts, alone);
    ChosenUndonated(counts, alone, most);
    ChosenUndonated(counts, alone, least);
    assert forall c :: 0 <= c < |counts| && alone[c] == 0 ==> shown[c] == counts[c];
  }

  // ---- who is where ----

  // The jobs of one core: queued, out, and ever scheduled here and not moved away.
  datatype Roster = Roster(queued: multiset<nat>, out: multiset<nat>, seen: set<nat>)

  const NOBODY := Roster(multiset{}, multiset{}, {})

  // A count is the jobs queued and out; each core runs one job at a time.
  ghost predicate RosterOk(r: Roster, count: nat) {
    count == |r.queued| + |r.out| && |r.out| <= 1
  }

  // The counts are right, and a pid belongs to one core.
  ghost predicate Books(rs: seq<Roster>, counts: seq<nat>) {
    && |counts| == |rs|
    && (forall c :: 0 <= c < |rs| ==> RosterOk(rs[c], counts[c]))
    && (forall c, d :: 0 <= c < |rs| && 0 <= d < |rs| && c != d ==> rs[c].seen !! rs[d].seen)
  }

  // Every yarn the system holds.
  ghost function Live(rs: seq<Roster>): multiset<nat> {
    if rs == [] then multiset{} else rs[0].queued + rs[0].out + Live(rs[1..])
  }

  lemma {:induction false} LiveUpdate(rs: seq<Roster>, c: nat, r: Roster)
    requires c < |rs|
    ensures Live(rs[c := r]) + (rs[c].queued + rs[c].out) == Live(rs) + (r.queued + r.out)
  {
    if c == 0 {
      assert rs[c := r][1..] == rs[1..];
    } else {
      LiveUpdate(rs[1..], c - 1, r);
      assert rs[c := r][1..] == rs[1..][c - 1 := r];
      var first, was, now := rs[0].queued + rs[0].out, rs[c].queued + rs[c].out, r.queued + r.out;
      assert first + Live(rs[1..][c - 1 := r]) + was == first + (Live(rs[1..][c - 1 := r]) + was);
      assert first + Live(rs[1..]) + now == first + (Live(rs[1..]) + now);
    }
  }

  /** The job counts add up to the number of yarns alive. */
  lemma {:induction false} CountsAddUp(rs: seq<Roster>, counts: seq<nat>)
    requires Books(rs, counts)
    ensures Sum(counts) == |Live(rs)|
    decreases |rs|
  {
    if rs != [] {
      CountsAddUp(rs[1..], counts[1..]);
    }
  }

  lemma BooksUpdate(rs: seq<Roster>, counts: seq<nat>, c: nat, r: Roster, count: nat, arrived: set<nat>)
    requires Books(rs, counts) && c < |rs| && RosterOk(r, count) && r.seen == rs[c].seen + arrived
    requires forall d :: 0 <= d < |rs| ==> arrived !! rs[d].seen
    ensures Books(rs[c := r], counts[c := count])
  {
  }

  // Jobs handed from one core to another.
  ghost predicate Exchanged(q: Roster, q': Roster, r: Roster, r': Roster) {
    && r.queued + r'.queued == q.queued + q'.queued && r.out == q.out && r'.out == q'.out
    && r.seen + r'.seen == q.seen + q'.seen && r.seen !! r'.seen
  }

  lemma ExchangedCounts(q: Roster, q': Roster, r: Roster, r': Roster, m: nat, m': nat, n: nat, n': nat)
    requires Exchanged(q, q', r, r') && RosterOk(q, m) && RosterOk(q', m')
    requires n == |r.queued| + |r.out| && n + n' == m + m'
    ensures RosterOk(r, n) && RosterOk(r', n')
  {
    assert |r.queued + r'.queued| == |r.queued| + |r'.queued|;
    assert |q.queued + q'.queued| == |q.queued| + |q'.queued|;
  }

  lemma ExchangedSeen(q: Roster, q': Roster, r: Roster, r': Roster, others: set<nat>)
    requires Exchanged(q, q', r, r') && q.seen !! others && q'.seen !! others
    ensures r.seen !! others && r'.seen !! others
  {
  }

  lemma BooksExchange(rs: seq<Roster>, counts: seq<nat>, a: nat, b: nat, r: Roster, r': Roster, n: nat, n': nat)
    requires Books(rs, counts) && a < |rs| && b < |rs| && a != b && Exchanged(rs[a], rs[b], r, r')
    requires n == |r.queued| + |r.out| && n + n' == counts[a] + counts[b]
    ensures Books(rs[a := r][b := r'], counts[a := n][b := n'])
    ensures Live(rs[a := r][b := r']) == Live(rs)
  {
    LiveExchange(rs, a, b, r, r');
    ExchangedCounts(rs[a], rs[b], r, r', counts[a], counts[b], n, n');
    forall d | 0 <= d < |rs| && d != a && d != b ensures r.seen !! rs[d].seen && r'.seen !! rs[d].seen {
      ExchangedSeen(rs[a], rs[b], r, r', rs[d].seen);
    }
  }

  lemma LiveExchange(rs: seq<Roster>, a: nat, b: nat, r: Roster, r': Roster)
    requires a < |rs| && b < |rs| && a != b && Exchanged(rs[a], rs[b], r, r')
    ensures Live(rs[a := r][b := r']) == Live(rs)
  {
    LiveUpdate(rs, a, r);
    LiveUpdate(rs[a := r], b, r');
    LiveSame(Live(rs), Live(rs[a := r]), Live(rs[a := r][b := r']), rs[a], rs[b], r, r');
  }

  lemma LiveSame(x: multiset<nat>, y: multiset<nat>, z: multiset<nat>, q: Roster, q': Roster, r: Roster, r': Roster)
    requires y + (q.queued + q.out) == x + (r.queued + r.out)
    requires z + (q'.queued + q'.out) == y + (r'.queued + r'.out)
    requires Exchanged(q, q', r, r')
    ensures z == x
  {
    var both := q.queued + q'.queued;
    forall p ensures z[p] == x[p] {
      assert (r.queued + r'.queued)[p] == both[p];
      assert (y + (q.queued + q.out))[p] == (x + (r.queued + r.out))[p];
      assert (z + (q'.queued + q'.out))[p] == (y + (r'.queued + r'.out))[p];
    }
  }

  // ---- the state of all cores ----

  datatype System = System(cores: seq<Option<Core>>, counts: seq<nat>)

  // A core without a scheduler has nobody.
  ghost function RosterOf(o: Option<Core>): Roster {
    if o.None? then NOBODY else Roster(Queued(o.value), Out(o.value), Seen(o.value))
  }

  ghost function Rosters(s: System): seq<Roster> {
    seq(|s.cores|, c requires 0 <= c < |s.cores| => RosterOf(s.cores[c]))
  }

  ghost predicate Sound(o: Option<Core>) { o.Some? ==> CoreWf(o.value) }

  ghost predicate SystemOk(s: System) {
    && (forall c {:trigger Sound(s.cores[c])} :: 0 <= c < |s.cores| ==> Sound(s.cores[c]))
    && Books(Rosters(s), s.counts)
  }

  ghost predicate Absent(s: System, pid: nat) {
    pid > 0 && forall c :: 0 <= c < |s.cores| ==> pid !in Rosters(s)[c].seen
  }

  ghost predicate SameLive(s: System, s': System) {
    && Live(Rosters(s')) == Live(Rosters(s))
    && |s'.cores| == |s.cores|
    && forall c :: 0 <= c < |s.cores| ==> Rosters(s')[c].out == Rosters(s)[c].out
  }

  // The program's invariant and the effects of its operations. Each is one of the facts
  // above, folded: it opens only where that fact is named.

  ghost predicate SystemWf(s: System) {
    && |s.counts| == |s.cores|
    && forall t {:trigger SystemOk(t)} :: t == s ==> SystemOk(t)
  }

  ghost predicate Unseen(s: System, pid: nat) {
    forall t {:trigger Absent(t, pid)} :: t == s ==> Absent(t, pid)
  }

  // A yarn joins, a yarn leaves; the same yarns.
  ghost predicate Gains(s: System, s': System, pid: nat) {
    forall rs {:trigger Live(rs)} :: rs == Rosters(s') ==> Live(rs) == Live(Rosters(s)) + multiset{pid}
  }

  ghost predicate Loses(s: System, s': System, pid: nat) {
    forall rs {:trigger Live(rs)} :: rs == Rosters(s') ==> Live(Rosters(s)) == Live(rs) + multiset{pid}
  }

  ghost predicate Keeps(s: System, s': System) {
    forall rs {:trigger Live(rs)} :: rs == Rosters(s') ==> Live(rs) == Live(Rosters(s))
  }

  // The same, and on each core the same yarn out.
  ghost predicate SameYarns(s: System, s': System) {
    forall t {:trigger SameLive(s, t)} :: t == s' ==> SameLive(s, t)
  }

  lemma KeepsThrough(s: System, t: System, u: System)
    requires SameYarns(s, t) && Keeps(t, u)
    ensures Keeps(s, u)
  {
    assert SameLive(s, t);
    assert Live(Rosters(u)) == Live(Rosters(t));
  }

  lemma KeepsAll(s: System, t: System)
    requires SameYarns(s, t)
    ensures Keeps(s, t)
  {
    assert SameLive(s, t);
  }

  // No job of this core is running.
  ghost predicate Resting(o: Option<Core>) {
    o.Some? ==> Out(o.value) == multiset{}
  }

  lemma SameYarnsThrough(s: System, t: System, u: System)
    requires SameYarns(s, t) && SameYarns(t, u)
    ensures SameYarns(s, u)
  {
    assert SameLive(s, t) && SameLive(t, u);
  }

  lemma SameYarnsNow(s: System)
    ensures SameYarns(s, s)
  {
  }

  lemma StillResting(s: System, t: System, c: nat)
    requires SameYarns(s, t) && c < |s.cores| && Resting(s.cores[c])
    ensures c < |t.cores| && Resting(t.cores[c])
  {
    assert SameLive(s, t);
    assert Rosters(t)[c].out == Rosters(s)[c].out;
  }

  lemma {:induction false} NobodyLives(rs: seq<Roster>)
    requires forall c :: 0 <= c < |rs| ==> rs[c] == NOBODY
    ensures Live(rs) == multiset{}
  {
    if rs != [] {
      NobodyLives(rs[1..]);
    }
  }

  // A scheduler with nothing in it.
  ghost predicate Fresh(core: Core) {
    CoreWf(core) && RosterOf(Some(core)) == NOBODY
  }

  function Start(prim: Core, procs: nat): System
    requires procs > 0
  {
    System([Some(prim)] + seq(procs - 1, _ => None), seq(procs, _ => 0))
  }

  lemma StartWf(prim: Core, procs: nat)
    requires procs > 0 && Fresh(prim)
    ensures SystemWf(Start(prim, procs)) && Live(Rosters(Start(prim, procs))) == multiset{}
  {
    var rs := Rosters(Start(prim, procs));
    assert forall c :: 0 <= c < procs ==> rs[c] == NOBODY;
    NobodyLives(rs);
  }

  // ---- one core changes ----

  function At(s: System, c: nat, core: Core, count: nat): System
    requires c < |s.cores| == |s.counts|
  {
    System(s.cores[c := Some(core)], s.counts[c := count])
  }

  lemma AtRosters(s: System, c: nat, core: Core, count: nat)
    requires c < |s.cores| == |s.counts|
    ensures Rosters(At(s, c, core, count)) == Rosters(s)[c := RosterOf(Some(core))]
  {
  }

  lemma RosterHere(s: System, c: nat)
    requires SystemWf(s) && c < |s.cores|
    ensures |s.counts| == |s.cores| && RosterOk(Rosters(s)[c], s.counts[c]) && Sound(s.cores[c])
  {
    assert SystemOk(s);
  }

  // An operation that leaves the core the pids it had keeps the books of all cores.
  lemma AtWf(s: System, c: nat, core: Core, count: nat)
    requires SystemWf(s) && c < |s.cores| && CoreWf(core) && RosterOk(RosterOf(Some(core)), count)
    requires Seen(core) == Rosters(s)[c].seen
    ensures SystemWf(At(s, c, core, count))
    ensures Rosters(At(s, c, core, count)) == Rosters(s)[c := RosterOf(Some(core))]
  {
    assert SystemOk(s);
    AtRosters(s, c, core, count);
    BooksUpdate(Rosters(s), s.counts, c, RosterOf(Some(core)), count, {});
  }

  // The core's scheduler, made on first use.
  function CoreFor(s: System, c: nat, secondary: Core): Core
    requires c < |s.cores|
  {
    if s.cores[c].Some? then s.cores[c].value else secondary
  }

  lemma CoreForWf(s: System, c: nat, secondary: Core)
    requires SystemWf(s) && c < |s.cores| && Fresh(secondary)
    ensures CoreWf(CoreFor(s, c, secondary)) && RosterOf(Some(CoreFor(s, c, secondary))) == Rosters(s)[c]
    ensures RosterOk(Rosters(s)[c], s.counts[c])
  {
    assert SystemOk(s);
    RosterHere(s, c);
  }

  /** Making a core's scheduler on first use changes nobody's books. */
  lemma CoreForKeeps(s: System, c: nat, secondary: Core)
    requires SystemWf(s) && c < |s.cores| && Fresh(secondary)
    ensures |s.counts| == |s.cores| && SystemWf(At(s, c, CoreFor(s, c, secondary), s.counts[c]))
    ensures Rosters(At(s, c, CoreFor(s, c, secondary), s.counts[c])) == Rosters(s)
  {
    CoreForWf(s, c, secondary);
    AtWf(s, c, CoreFor(s, c, secondary), s.counts[c]);
  }

  // What the operations do to the roster of their core,

  ghost predicate Joined(r: Roster, r': Roster, pid: nat) {
    r'.queued == r.queued + multiset{pid} && r'.out == r.out && r'.seen == r.seen + {pid}
  }

  ghost predicate Taken(r: Roster, r': Roster, pid: nat) {
    r.queued == r'.queued + multiset{pid} && r'.out == r.out + multiset{pid} && r'.seen == r.seen
  }

  ghost predicate Returned(r: Roster, r': Roster, pid: nat) {
    r'.queued == r.queued + multiset{pid} && r.out == r'.out + multiset{pid} && r'.seen == r.seen
  }

  ghost predicate Ended(r: Roster, r': Roster, pid: nat) {
    r'.queued == r.queued && r.out == r'.out + multiset{pid} && r'.seen == r.seen
  }

  // and so to everybody.

  lemma RosterScheduled(rs: seq<Roster>, c: nat, r: Roster, pid: nat, count: nat)
    requires c < |rs| && RosterOk(rs[c], count) && Joined(rs[c], r, pid)
    ensures RosterOk(r, count + 1) && Live(rs[c := r]) == Live(rs) + multiset{pid}
  {
    LiveUpdate(rs, c, r);
    var was := rs[c].queued + rs[c].out;
    assert Live(rs) + (r.queued + r.out) == Live(rs) + multiset{pid} + was;
    TakeBack(Live(rs[c := r]), Live(rs) + multiset{pid}, was);
  }

  lemma RosterSelected(rs: seq<Roster>, c: nat, r: Roster, pid: nat, count: nat)
    requires c < |rs| && RosterOk(rs[c], count) && rs[c].out == multiset{} && Taken(rs[c], r, pid)
    ensures RosterOk(r, count) && Live(rs[c := r]) == Live(rs)
  {
    assert |rs[c].queued| == |r.queued| + 1;
    assert r.queued + r.out == rs[c].queued + rs[c].out;
    LiveUpdate(rs, c, r);
    TakeBack(Live(rs[c := r]), Live(rs), r.queued + r.out);
  }

  lemma RosterReturned(rs: seq<Roster>, c: nat, r: Roster, pid: nat, count: nat)
    requires c < |rs| && RosterOk(rs[c], count) && Returned(rs[c], r, pid)
    ensures RosterOk(r, count) && Live(rs[c := r]) == Live(rs)
  {
    assert |r.queued| == |rs[c].queued| + 1 && |rs[c].out| == |r.out| + 1;
    assert r.queued + r.out == rs[c].queued + rs[c].out;
    LiveUpdate(rs, c, r);
    TakeBack(Live(rs[c := r]), Live(rs), r.queued + r.out);
  }

  lemma RosterEnded(rs: seq<Roster>, c: nat, r: Roster, pid: nat, count: nat)
    requires c < |rs| && RosterOk(rs[c], count) && Ended(rs[c], r, pid)
    ensures count > 0 && RosterOk(r, count - 1) && Live(rs) == Live(rs[c := r]) + multiset{pid}
  {
    assert |rs[c].out| == |r.out| + 1;
    LiveUpdate(rs, c, r);
    var now := r.queued + r.out;
    assert Live(rs[c := r]) + (rs[c].queued + rs[c].out) == Live(rs[c := r]) + multiset{pid} + now;
    TakeBack(Live(rs), Live(rs[c := r]) + multiset{pid}, now);
  }

  lemma BooksJoin(rs: seq<Roster>, counts: seq<nat>, c: nat, r: Roster, pid: nat)
    requires Books(rs, counts) && c < |rs| && Joined(rs[c], r, pid)
    requires forall d :: 0 <= d < |rs| ==> pid !in rs[d].seen
    ensures Books(rs[c := r], counts[c := counts[c] + 1])
  {
  }

  lemma Arrived(s: System, c: nat, core: Core, pid: nat)
    requires SystemWf(s) && c < |s.cores| && CoreWf(core) && Unseen(s, pid)
    requires Joined(Rosters(s)[c], RosterOf(Some(core)), pid)
    ensures SystemWf(At(s, c, core, s.counts[c] + 1))
  {
    assert SystemOk(s) && Absent(s, pid);
    BooksJoin(Rosters(s), s.counts, c, RosterOf(Some(core)), pid);
    AtRosters(s, c, core, s.counts[c] + 1);
    AtSound(s, c, core, s.counts[c] + 1);
  }

  lemma AtSound(s: System, c: nat, core: Core, count: nat)
    requires SystemWf(s) && c < |s.cores| && CoreWf(core)
    requires Books(Rosters(At(s, c, core, count)), s.counts[c := count])
    ensures SystemWf(At(s, c, core, count))
  {
    assert SystemOk(s);
    var s' := At(s, c, core, count);
    forall d {:trigger Sound(s'.cores[d])} | 0 <= d < |s'.cores| ensures Sound(s'.cores[d]) {
      assert d != c ==> Sound(s.cores[d]);
    }
    assert SystemOk(s');
  }

  /** Scheduling on any core adds one yarn to the system and one to that core's count. */
  lemma ScheduledOn(s: System, c: nat, core: Core, pid: nat)
    requires SystemWf(s) && c < |s.cores| && CoreWf(core) && Unseen(s, pid)
    requires Joined(Rosters(s)[c], RosterOf(Some(core)), pid)
    ensures SystemWf(At(s, c, core, s.counts[c] + 1))
    ensures Live(Rosters(At(s, c, core, s.counts[c] + 1))) == Live(Rosters(s)) + multiset{pid}
  {
    Arrived(s, c, core, pid);
    RosterHere(s, c);
    RosterScheduled(Rosters(s), c, RosterOf(Some(core)), pid, s.counts[c]);
    AtRosters(s, c, core, s.counts[c] + 1);
  }

  /** Selecting loses no yarn and changes no count: the job is out instead of queued. */
  lemma SelectedOn(s: System, c: nat, core: Core, pid: nat)
    requires SystemWf(s) && c < |s.cores| && Rosters(s)[c].out == multiset{} && CoreWf(core)
    requires Taken(Rosters(s)[c], RosterOf(Some(core)), pid) || RosterOf(Some(core)) == Rosters(s)[c]
    ensures SystemWf(At(s, c, core, s.counts[c]))
    ensures Live(Rosters(At(s, c, core, s.counts[c]))) == Live(Rosters(s))
  {
    if RosterOf(Some(core)) == Rosters(s)[c] {
      RosterHere(s, c);
      assert Rosters(s)[c := RosterOf(Some(core))] == Rosters(s);
    } else {
      RosterHere(s, c);
      RosterSelected(Rosters(s), c, RosterOf(Some(core)), pid, s.counts[c]);
    }
    AtWf(s, c, core, s.counts[c]);
  }

  /** Rescheduling puts the job back in the same core's queue. */
  lemma RescheduledOn(s: System, c: nat, core: Core, pid: nat)
    requires SystemWf(s) && c < |s.cores| && CoreWf(core) && Returned(Rosters(s)[c], RosterOf(Some(core)), pid)
    ensures SystemWf(At(s, c, core, s.counts[c]))
    ensures Live(Rosters(At(s, c, core, s.counts[c]))) == Live(Rosters(s))
  {
    RosterHere(s, c);
    RosterReturned(Rosters(s), c, RosterOf(Some(core)), pid, s.counts[c]);
    AtWf(s, c, core, s.counts[c]);
  }

  /** Unscheduling removes one yarn; the count it takes one from is never zero. */
  lemma UnscheduledOn(s: System, c: nat, core: Core, pid: nat)
    requires SystemWf(s) && c < |s.cores| && CoreWf(core) && Ended(Rosters(s)[c], RosterOf(Some(core)), pid)
    ensures s.counts[c] > 0 && SystemWf(At(s, c, core, s.counts[c] - 1))
    ensures Live(Rosters(s)) == Live(Rosters(At(s, c, core, s.counts[c] - 1))) + multiset{pid}
  {
    RosterHere(s, c);
    RosterEnded(Rosters(s), c, RosterOf(Some(core)), pid, s.counts[c]);
    AtWf(s, c, core, s.counts[c] - 1);
  }

  // The same, for the operations as the schedulers define them. ScheduledAt and its
  // siblings say exactly what each makes of the system; they too open only where a
  // scheduler is being called.

  ghost predicate ScheduledAt(s: System, c: nat, secondary: Core, pid: nat, prio: Priority, s': System)
    requires c < |s.cores| == |s.counts|
  {
    forall core {:trigger Schedule(core, pid, prio)} :: core == CoreFor(s, c, secondary) ==>
      CoreWf(core) && pid > 0 && pid !in Seen(core) && s' == At(s, c, Schedule(core, pid, prio), s.counts[c] + 1)
  }

  ghost predicate SelectedAt(s: System, c: nat, secondary: Core, job: Grant, s': System)
    requires c < |s.cores| == |s.counts|
  {
    forall core {:trigger Select(core)} :: core == CoreFor(s, c, secondary) ==>
      CoreWf(core) && CanSelect(core) && job == Select(core).1 && s' == At(s, c, Select(core).0, s.counts[c])
  }

  ghost predicate RescheduledAt(s: System, c: nat, pid: nat, remaining: nat, s': System)
    requires c < |s.cores| == |s.counts|
  {
    forall core {:trigger Reschedule(core, pid, remaining)} :: s.cores[c] == Some(core) ==>
      && IsOut(core, pid) && remaining <= Granted(core, pid)
      && s' == At(s, c, Reschedule(core, pid, remaining), s.counts[c])
  }

  ghost predicate UnscheduledAt(s: System, c: nat, pid: nat, s': System)
    requires c < |s.cores| == |s.counts|
  {
    forall core {:trigger Unschedule(core, pid)} :: s.cores[c] == Some(core) ==>
      IsOut(core, pid) && s.counts[c] > 0 && s' == At(s, c, Unschedule(core, pid), s.counts[c] - 1)
  }

  lemma SelectTakes(core: Core)
    requires CoreWf(core) && Out(core) == multiset{}
    ensures CanSelect(core) && CoreWf(Select(core).0)
    ensures var (core', job) := Select(core);
            && (|| Taken(RosterOf(Some(core)), RosterOf(Some(core')), job.pid)
                || RosterOf(Some(core')) == RosterOf(Some(core)))
            && (job.pid != 0 ==> job.pid in Out(core'))
  {
    NothingOut(core);
    SelectContract(core);
  }

  /** The calls themselves. Scheduling adds one yarn to the system and one to the core's
      count; */
  method CallSchedule(ghost s: System, ghost c: nat, ghost secondary: Core, core: Core, pid: nat, prio: Priority)
    returns (core': Core)
    requires SystemWf(s) && c < |s.cores| == |s.counts| && Fresh(secondary) && Unseen(s, pid)
    requires core == CoreFor(s, c, secondary)
    ensures SystemWf(At(s, c, core', s.counts[c] + 1)) && Gains(s, At(s, c, core', s.counts[c] + 1), pid)
    ensures ScheduledAt(s, c, secondary, pid, prio, At(s, c, core', s.counts[c] + 1))
  {
    CoreForWf(s, c, secondary);
    assert Absent(s, pid) && pid !in Rosters(s)[c].seen;
    ScheduleContract(core, pid, prio);
    core' := Schedule(core, pid, prio);
    ScheduledOn(s, c, core', pid);
  }

  /** selecting changes no count and loses no yarn; */
  method CallSelect(ghost s: System, ghost c: nat, ghost secondary: Core, core: Core) returns (core': Core, job: Grant)
    requires SystemWf(s) && c < |s.cores| == |s.counts| && Fresh(secondary) && Resting(s.cores[c])
    requires core == CoreFor(s, c, secondary)
    ensures SystemWf(At(s, c, core', s.counts[c])) && Keeps(s, At(s, c, core', s.counts[c]))
    ensures SelectedAt(s, c, secondary, job, At(s, c, core', s.counts[c]))
    ensures job.pid != 0 ==> job.pid in Out(core')
  {
    assert Rosters(s)[c].out == multiset{};
    CoreForWf(s, c, secondary);
    SelectTakes(core);
    core', job := Select(core).0, Select(core).1;
    SelectedOn(s, c, core', job.pid);
  }

  /** nor does rescheduling; */
  method CallReschedule(ghost s: System, ghost c: nat, core: Core, pid: nat, remaining: nat) returns (core': Core)
    requires SystemWf(s) && c < |s.cores| == |s.counts| && s.cores[c] == Some(core)
    requires pid in Out(core) && remaining <= Granted(core, pid)
    ensures SystemWf(At(s, c, core', s.counts[c])) && Keeps(s, At(s, c, core', s.counts[c]))
    ensures RescheduledAt(s, c, pid, remaining, At(s, c, core', s.counts[c]))
  {
    RosterHere(s, c);
    RescheduleContract(core, pid, remaining);
    core' := Reschedule(core, pid, remaining);
    RescheduledOn(s, c, core', pid);
  }

  /** unscheduling takes one yarn away, and one off a count that is not zero. */
  method CallUnschedule(ghost s: System, ghost c: nat, core: Core, pid: nat) returns (core': Core)
    requires SystemWf(s) && c < |s.cores| == |s.counts| && s.cores[c] == Some(core) && pid in Out(core)
    ensures s.counts[c] > 0
    ensures SystemWf(At(s, c, core', s.counts[c] - 1)) && Loses(s, At(s, c, core', s.counts[c] - 1), pid)
    ensures UnscheduledAt(s, c, pid, At(s, c, core', s.counts[c] - 1))
  {
    RosterHere(s, c);
    UnscheduleContract(core, pid);
    core' := Unschedule(core, pid);
    UnscheduledOn(s, c, core', pid);
  }

  // ---- two cores change: rebalancing ----

  function PairAt(s: System, src: nat, dst: nat): Pair
    requires src < |s.cores| == |s.counts| && dst < |s.cores| && s.cores[src].Some? && s.cores[dst].Some?
  {
    Pair(s.cores[src].value, s.cores[dst].value, s.counts[src], s.counts[dst])
  }

  function WithPair(s: System, src: nat, dst: nat, p: Pair): System
    requires src < |s.cores| == |s.counts| && dst < |s.cores|
  {
    At(At(s, src, p.src, p.cs), dst, p.dst, p.ct)
  }

  // What balancing src against dst asks of them: two locks, and when src has more jobs,
  // two schedulers that can hand jobs over, with enough of them queued.
  ghost predicate Balanceable(s: System, src: nat, dst: nat)
    requires |s.cores| == |s.counts|
  {
    && src < |s.cores| && dst < |s.cores| && src != dst
    && (s.counts[src] > s.counts[dst] ==>
          && s.cores[src].Some? && s.cores[dst].Some? && !s.cores[src].value.Staircase?
          && |Queued(s.cores[src].value)| >= CeilDiv(s.counts[src] - s.counts[dst], 2))
  }

  // The loop's states so far, and the system now.
  ghost predicate Along(s: System, src: nat, dst: nat, run: seq<Pair>, now: System)
    requires |s.cores| == |s.counts| && Balanceable(s, src, dst)
  {
    if s.counts[src] <= s.counts[dst] then run == [] && now == s
    else IsRun(run, PairAt(s, src, dst)) && now == WithPair(s, src, dst, Last(run))
  }

  lemma PairAtWf(s: System, src: nat, dst: nat)
    requires SystemWf(s) && Balanceable(s, src, dst) && s.counts[src] > s.counts[dst]
    ensures PairWf(PairAt(s, src, dst))
  {
    assert SystemOk(s);
    assert Sound(s.cores[src]) && Sound(s.cores[dst]);
    assert Rosters(s)[src].seen !! Rosters(s)[dst].seen;
  }

  lemma PairBack(s: System, src: nat, dst: nat, p: Pair, q: Pair)
    requires src < |s.cores| == |s.counts| && dst < |s.cores| && src != dst
    ensures var s' := WithPair(s, src, dst, p);
            && |s'.cores| == |s'.counts| == |s.cores|
            && s'.cores[src].Some? && s'.cores[dst].Some? && PairAt(s', src, dst) == p
            && WithPair(s', src, dst, q) == WithPair(s, src, dst, q)
  {
  }

  lemma AlongStart(s: System, src: nat, dst: nat) returns (run: seq<Pair>)
    requires |s.cores| == |s.counts| && Balanceable(s, src, dst)
    ensures Along(s, src, dst, run, s) && |run| <= 1
  {
    run := [];
    if s.counts[src] > s.counts[dst] {
      run := [PairAt(s, src, dst)];
      assert WithPair(s, src, dst, PairAt(s, src, dst)).cores == s.cores;
    }
  }

  /** The loop's guard holds until the run has made the passes needed. */
  lemma AlongGuard(s: System, src: nat, dst: nat, run: seq<Pair>, now: System)
    requires SystemWf(s) && Balanceable(s, src, dst) && Along(s, src, dst, run, now)
    ensures |now.cores| == |now.counts| == |s.cores|
    ensures |run| <= Needed(s.counts[src], s.counts[dst]) + 1
    ensures now.counts[src] > now.counts[dst] ==>
              && now.cores[src].Some? && now.cores[dst].Some? && PairWf(PairAt(now, src, dst))
              && |run| <= Needed(s.counts[src], s.counts[dst])
  {
    if s.counts[src] > s.counts[dst] {
      PairAtWf(s, src, dst);
      RebalanceExact(run, PairAt(s, src, dst));
      PairBack(s, src, dst, Last(run), Last(run));
    }
  }

  lemma AlongPass(s: System, src: nat, dst: nat, run: seq<Pair>, now: System) returns (run': seq<Pair>)
    requires SystemWf(s) && Balanceable(s, src, dst) && Along(s, src, dst, run, now)
    requires |now.cores| == |now.counts| == |s.cores| && now.counts[src] > now.counts[dst]
    requires now.cores[src].Some? && now.cores[dst].Some? && PairWf(PairAt(now, src, dst))
    ensures Along(s, src, dst, run', WithPair(now, src, dst, Hoist(PairAt(now, src, dst)))) && |run'| == |run| + 1
  {
    PairBack(s, src, dst, Last(run), Hoist(PairAt(now, src, dst)));
    run' := Extended(run, PairAt(s, src, dst));
  }

  lemma BothExchanged(s: System, src: nat, dst: nat, p: Pair)
    requires SystemWf(s) && src < |s.cores| && dst < |s.cores| && s.cores[src].Some? && s.cores[dst].Some?
    requires Both(p) == Both(PairAt(s, src, dst)) && Seen(p.src) !! Seen(p.dst)
    requires p.cs - |Queued(p.src)| == s.counts[src] - |Queued(s.cores[src].value)|
    ensures Exchanged(Rosters(s)[src], Rosters(s)[dst], RosterOf(Some(p.src)), RosterOf(Some(p.dst)))
    ensures p.cs == |Queued(p.src)| + |Out(p.src)|
  {
    assert SystemOk(s);
    assert RosterOk(Rosters(s)[src], s.counts[src]);
    assert Both(p).srcOut == Out(p.src);
  }

  lemma WithPairRosters(s: System, src: nat, dst: nat, p: Pair)
    requires src < |s.cores| == |s.counts| && dst < |s.cores| && src != dst
    ensures Rosters(WithPair(s, src, dst, p)) == Rosters(s)[src := RosterOf(Some(p.src))][dst := RosterOf(Some(p.dst))]
  {
  }

  lemma WithPairSound(s: System, src: nat, dst: nat, p: Pair)
    requires SystemWf(s) && src < |s.cores| == |s.counts| && dst < |s.cores| && src != dst && PairWf(p)
    ensures forall c {:trigger Sound(WithPair(s, src, dst, p).cores[c])} ::
              0 <= c < |s.cores| ==> Sound(WithPair(s, src, dst, p).cores[c])
  {
    assert SystemOk(s);
  }

  lemma WithPairWf(s: System, src: nat, dst: nat, p: Pair)
    requires SystemWf(s) && src < |s.cores| == |s.counts| && dst < |s.cores| && src != dst
    requires PairWf(p) && Exchanged(Rosters(s)[src], Rosters(s)[dst], RosterOf(Some(p.src)), RosterOf(Some(p.dst)))
    requires p.cs == |Queued(p.src)| + |Out(p.src)| && p.cs + p.ct == s.counts[src] + s.counts[dst]
    ensures SystemWf(WithPair(s, src, dst, p)) && SameYarns(s, WithPair(s, src, dst, p))
  {
    WithPairRosters(s, src, dst, p);
    WithPairSound(s, src, dst, p);
    WithPairBooks(s, src, dst, p);
  }

  lemma WithPairBooks(s: System, src: nat, dst: nat, p: Pair)
    requires SystemWf(s) && src < |s.cores| == |s.counts| && dst < |s.cores| && src != dst
    requires Exchanged(Rosters(s)[src], Rosters(s)[dst], RosterOf(Some(p.src)), RosterOf(Some(p.dst)))
    requires p.cs == |Queued(p.src)| + |Out(p.src)| && p.cs + p.ct == s.counts[src] + s.counts[dst]
    ensures var rs := Rosters(s)[src := RosterOf(Some(p.src))][dst := RosterOf(Some(p.dst))];
            Books(rs, s.counts[src := p.cs][dst := p.ct]) && Live(rs) == Live(Rosters(s))
  {
    assert SystemOk(s);
    BooksExchange(Rosters(s), s.counts, src, dst, RosterOf(Some(p.src)), RosterOf(Some(p.dst)), p.cs, p.ct);
  }

  predicate IsStairs(o: Option<Core>) { o.Some? && o.value.Staircase? }

  // The two counts are level or the target is one ahead; each core keeps its kind of
  // scheduler, and no other core is touched.
  ghost predicate Levelled(s: System, src: nat, dst: nat, s': System)
    requires src < |s.cores| == |s.counts| && dst < |s.cores|
  {
    && |s'.cores| == |s'.counts| == |s.cores|
    && s'.counts[src] + s'.counts[dst] == s.counts[src] + s.counts[dst]
    && (if s.counts[src] > s.counts[dst]
        then s'.counts[src] <= s'.counts[dst] <= s'.counts[src] + 1 && s'.cores[src].Some? && s'.cores[dst].Some?
             && IsStairs(s'.cores[src]) == IsStairs(s.cores[src]) && IsStairs(s'.cores[dst]) == IsStairs(s.cores[dst])
        else s' == s)
    && (forall c :: 0 <= c < |s.cores| && c != src && c != dst ==>
          s'.cores[c] == s.cores[c] && s'.counts[c] == s.counts[c])
  }

  lemma PairEnd(s: System, src: nat, dst: nat, p: Pair)
    requires SystemWf(s) && src < |s.cores| && dst < |s.cores| && src != dst
    requires s.cores[src].Some? && s.cores[dst].Some?
    requires PairWf(p) && Both(p) == Both(PairAt(s, src, dst))
    requires p.cs + p.ct == s.counts[src] + s.counts[dst]
    requires p.cs - |Queued(p.src)| == s.counts[src] - |Queued(s.cores[src].value)|
    ensures SystemWf(WithPair(s, src, dst, p)) && SameYarns(s, WithPair(s, src, dst, p))
  {
    BothExchanged(s, src, dst, p);
    WithPairWf(s, src, dst, p);
  }

  lemma WithPairLevels(s: System, src: nat, dst: nat, p: Pair)
    requires src < |s.cores| == |s.counts| && dst < |s.cores| && src != dst && s.counts[src] > s.counts[dst]
    requires p.cs <= p.ct <= p.cs + 1 && p.cs + p.ct == s.counts[src] + s.counts[dst]
    requires p.src.Staircase? == IsStairs(s.cores[src]) && p.dst.Staircase? == IsStairs(s.cores[dst])
    ensures Levelled(s, src, dst, WithPair(s, src, dst, p))
  {
  }

  /** Rebalancing keeps the books of every core, and every yarn; it levels the two counts
      and touches no other core. */
  lemma AlongEnd(s: System, src: nat, dst: nat, run: seq<Pair>, now: System)
    requires SystemWf(s) && Balanceable(s, src, dst) && Along(s, src, dst, run, now)
    requires |now.counts| == |s.counts| && now.counts[src] <= now.counts[dst]
    ensures SystemWf(now) && Levelled(s, src, dst, now) && SameYarns(s, now)
    ensures s.counts[src] > s.counts[dst] ==> |run| == Needed(s.counts[src], s.counts[dst]) + 1
  {
    if s.counts[src] > s.counts[dst] {
      PairAtWf(s, src, dst);
      var p := RunEnd(run, PairAt(s, src, dst));
      PairEnd(s, src, dst, p);
      assert Both(p).srcStairs == p.src.Staircase? && Both(p).dstStairs == p.dst.Staircase?;
      WithPairLevels(s, src, dst, p);
    }
  }

  lemma LevelledBelow(s: System, src: nat, dst: nat, s': System, bound: nat)
    requires |s.cores| == |s.counts| && src < |s.cores| && dst < |s.cores| && Levelled(s, src, dst, s')
    requires Below(s.counts, bound)
    ensures Below(s'.counts, bound)
  {
  }

  // ---- donated cores ----

  // alone[c] is the one yarn core c is given to, or 0. It is never core 0, and it is the
  // first core without a scheduler.
  ghost predicate DonatedOk(s: System, alone: seq<nat>) {
    && |alone| == |s.cores|
    && forall c :: 0 <= c < |alone| && alone[c] != 0 ==>
         0 < c && s.cores[c].None? && forall d :: 1 <= d < c ==> s.cores[d].Some?
  }

  // Giving a core that is not donated a scheduler changes nothing here.
  lemma DonatedAt(s: System, alone: seq<nat>, c: nat, core: Core, count: nat)
    requires DonatedOk(s, alone) && c < |s.cores| == |s.counts| && alone[c] == 0
    ensures DonatedOk(At(s, c, core, count), alone)
    ensures Shown(At(s, c, core, count).counts, alone) == Shown(s.counts, alone)[c := count]
  {
  }

  // A donated core has nobody else.
  lemma DonatedEmpty(s: System, alone: seq<nat>, c: nat)
    requires SystemWf(s) && DonatedOk(s, alone) && c < |alone| && alone[c] != 0
    ensures |s.counts| == |s.cores| && s.counts[c] == 0
  {
    RosterHere(s, c);
  }

  ghost predicate IsFirstUnused(cores: seq<Option<Core>>, c: nat) {
    1 <= c < |cores| && cores[c].None? && forall d :: 1 <= d < c ==> cores[d].Some?
  }

  /** There is never more than one donated core; while there is one, it is the core that the
      next titanic yarn will be given too. */
  lemma OneDonatedCore(s: System, alone: seq<nat>, c: nat)
    requires DonatedOk(s, alone) && c < |alone| && alone[c] != 0
    ensures forall d :: 0 <= d < |alone| && alone[d] != 0 ==> d == c
    ensures forall d :: IsFirstUnused(s.cores, d) <==> d == c
  {
  }

  // The first unused core is given to pid, whoever had it; it is taken back.

  lemma DonatedNext(s: System, alone: seq<nat>, c: nat, pid: nat)
    requires DonatedOk(s, alone) && IsFirstUnused(s.cores, c) && |s.counts| == |s.cores| && pid > 0
    ensures DonatedOk(s, alone[c := pid])
    ensures Shown(s.counts, alone[c := pid]) == Shown(s.counts, alone)[c := NONE]
  {
    forall d | 0 <= d < |alone| && alone[d] != 0 ensures d == c {
      OneDonatedCore(s, alone, d);
    }
  }

  lemma DonatedBack(s: System, alone: seq<nat>, c: nat)
    requires SystemWf(s) && DonatedOk(s, alone) && c < |alone| && alone[c] != 0
    ensures |s.counts| == |s.cores| && DonatedOk(s, alone[c := 0])
    ensures Shown(s.counts, alone[c := 0]) == Shown(s.counts, alone)[c := 0]
  {
    DonatedEmpty(s, alone, c);
  }

  ghost function One(pid: nat): multiset<nat> { if pid != 0 then multiset{pid} else multiset{} }

  // The yarns that have a core to themselves.
  ghost function Alone(alone: seq<nat>): multiset<nat> {
    if alone == [] then multiset{} else One(alone[0]) + Alone(alone[1..])
  }

  lemma InFront(first: multiset<nat>, a: multiset<nat>, b: multiset<nat>, p: multiset<nat>, q: multiset<nat>)
    requires a + p == b + q
    ensures first + a + p == first + b + q
  {
    assert first + a + p == first + (a + p);
  }

  lemma {:induction false} AloneUpdate(alone: seq<nat>, c: nat, pid: nat)
    requires c < |alone|
    ensures Alone(alone[c := pid]) + One(alone[c]) == Alone(alone) + One(pid)
  {
    var rest := alone[1..];
    if c == 0 {
      assert alone[c := pid][1..] == rest;
    } else {
      AloneUpdate(rest, c - 1, pid);
      assert alone[c := pid][1..] == rest[c - 1 := pid];
      InFront(One(alone[0]), Alone(rest[c - 1 := pid]), Alone(rest), One(rest[c - 1]), One(pid));
    }
  }

  // ---- one round of accounting ----

  // lastMin is the answer the least-load search repeats while cd lasts.
  datatype Load = Load(sys: System, alone: seq<nat>, lastMin: nat, cd: nat)

  // What the program keeps: the remembered core has a scheduler, so it is not donated, and
  // will not be while it is remembered.
  ghost predicate LoadOk(l: Load) {
    && SystemWf(l.sys) && DonatedOk(l.sys, l.alone) && |l.sys.cores| > 0 && Below(l.sys.counts, NONE)
    && (l.cd > 0 ==> l.lastMin < |l.sys.cores| && l.sys.cores[l.lastMin].Some?)
  }

  lemma StartLoad(prim: Core, procs: nat)
    requires procs > 0 && Fresh(prim)
    ensures LoadOk(Load(Start(prim, procs), Zeros(procs), 0, 0))
    ensures Shown(Start(prim, procs).counts, Zeros(procs)) == Zeros(procs)
  {
    StartWf(prim, procs);
  }

  // What the arrays are after a hoist.
  lemma ShownPair(s: System, alone: seq<nat>, src: nat, dst: nat, p: Pair)
    requires src < |s.cores| == |s.counts| == |alone| && dst < |s.cores| && src != dst && alone[src] == alone[dst] == 0
    ensures var s' := WithPair(s, src, dst, p);
            && s'.cores == s.cores[src := Some(p.src)][dst := Some(p.dst)] && |s'.counts| == |s.counts|
            && Shown(s'.counts, alone) == Shown(s.counts, alone)[src := p.cs][dst := p.ct]
  {
  }

  lemma LoadAt(l: Load, c: nat, core: Core, count: nat)
    requires LoadOk(l) && c < |l.sys.cores| == |l.sys.counts| && l.alone[c] == 0 && count < NONE
    requires SystemWf(At(l.sys, c, core, count))
    ensures LoadOk(l.(sys := At(l.sys, c, core, count)))
    ensures Shown(At(l.sys, c, core, count).counts, l.alone) == Shown(l.sys.counts, l.alone)[c := count]
  {
    DonatedAt(l.sys, l.alone, c, core, count);
  }

  // What the two searches answer.
  ghost predicate Answers(l: Load, most: nat, least: nat) {
    AnswersFor(l.sys.counts, l.alone, l.lastMin, l.cd, most, least)
  }

  ghost predicate AnswersFor(counts: seq<nat>, alone: seq<nat>, lastMin: nat, cd: nat, most: nat, least: nat) {
    && |alone| == |counts|
    && IsFirstMost(Shown(counts, alone), alone, most)
    && (if cd > 0 then least == lastMin else IsFirstLeast(Shown(counts, alone), least))
  }

  // The loop's passes from one to the other.
  ghost predicate Rebalanced(s: System, src: nat, dst: nat, s': System)
    requires |s.cores| == |s.counts|
  {
    Balanceable(s, src, dst) && exists run :: Along(s, src, dst, run, s')
  }

  // One shift of jobs with those answers; a round is two.
  ghost predicate Shifted(l: Load, most: nat, least: nat, l': Load)
    requires most < |l.sys.cores| == |l.sys.counts| && least < |l.sys.cores|
  {
    && Rebalanced(l.sys, most, least, l'.sys) && Levelled(l.sys, most, least, l'.sys)
    && SystemWf(l'.sys) && SameYarns(l.sys, l'.sys)
    && l'.alone == l.alone && l'.lastMin == least && l'.cd == NextCd(l.cd)
  }

  function NextCd(cd: nat): nat { if cd > 0 then cd - 1 else 2 }

  // Whatever the searches answer, the shift ends.
  ghost predicate ShiftEnds(l: Load) {
    && |l.sys.cores| == |l.sys.counts|
    && forall most, least :: Answers(l, most, least) ==> Balanceable(l.sys, most, least)
  }

  ghost predicate RoundEnds(l: Load) {
    && ShiftEnds(l)
    && forall most, least, l' :: Answers(l, most, least) && Shifted(l, most, least, l') ==> ShiftEnds(l')
  }

  // Two shifts, with what the searches answer in each and the state in between.
  datatype Round = Round(most: nat, least: nat, between: Load, most': nat, least': nat)

  ghost predicate IsRound(l: Load, r: Round, l': Load) {
    && r.most < |l.sys.cores| == |l.sys.counts| && r.least < |l.sys.cores|
    && Answers(l, r.most, r.least) && Shifted(l, r.most, r.least, r.between)
    && r.most' < |r.between.sys.cores| == |r.between.sys.counts| && r.least' < |r.between.sys.cores|
    && Answers(r.between, r.most', r.least') && Shifted(r.between, r.most', r.least', l')
  }

  ghost predicate Busy(o: Option<Core>) { o.Some? && Out(o.value) != multiset{} }

  ghost function BusyCores(s: System): seq<bool> {
    seq(|s.cores|, c requires 0 <= c < |s.cores| => Busy(s.cores[c]))
  }

  // A scheduler, fair or round robin.
  predicate Gives(o: Option<Core>) { o.Some? && !IsStairs(o) }

  // Every core that is not donated has one.
  ghost predicate Giving(s: System, alone: seq<nat>) {
    && |alone| == |s.cores|
    && forall c :: 0 <= c < |s.cores| && alone[c] == 0 ==> Gives(s.cores[c])
  }

  // One core twice, or a core busy with its only job next to an idle one.
  ghost predicate Stalls(counts: seq<nat>, busy: seq<bool>, most: nat, least: nat)
    requires most < |counts| == |busy| && least < |counts|
  {
    most == least || (counts[most] == 1 && counts[least] == 0 && busy[most])
  }

  lemma Queues(s: System, c: nat)
    requires SystemWf(s) && c < |s.cores| && s.cores[c].Some?
    ensures s.counts[c] == |Queued(s.cores[c].value)| + |Out(s.cores[c].value)| && |Out(s.cores[c].value)| <= 1
    ensures Busy(s.cores[c]) <==> |Out(s.cores[c].value)| == 1
  {
    RosterHere(s, c);
  }

  /** What the loop needs of the two cores can be told from the counts and from whether the
      giving core is running a job. */
  lemma BalanceableIff(s: System, most: nat, least: nat)
    requires SystemWf(s) && most < |s.cores| && least < |s.cores| && Gives(s.cores[most]) && Gives(s.cores[least])
    ensures Balanceable(s, most, least) <==> !Stalls(s.counts, BusyCores(s), most, least)
  {
    Queues(s, most);
    Queues(s, least);
  }

  // ---- the round, on the counts alone ----

  function MovedCounts(counts: seq<nat>, most: nat, least: nat): seq<nat>
    requires most < |counts| && least < |counts|
  {
    if counts[most] <= counts[least] then counts
    else
      var both := counts[most] + counts[least];
      counts[most := both / 2][least := both - both / 2]
  }

  ghost predicate NoStall(counts: seq<nat>, alone: seq<nat>, busy: seq<bool>, lastMin: nat, cd: nat)
    requires |busy| == |counts| && (cd > 0 ==> lastMin < |counts|)
  {
    forall most, least :: AnswersFor(counts, alone, lastMin, cd, most, least) ==> !Stalls(counts, busy, most, least)
  }

  // Neither shift stalls; which cores are busy does not change.
  ghost predicate NoStallTwice(counts: seq<nat>, alone: seq<nat>, busy: seq<bool>, lastMin: nat, cd: nat)
    requires |busy| == |counts| && (cd > 0 ==> lastMin < |counts|)
  {
    && NoStall(counts, alone, busy, lastMin, cd)
    && forall most, least :: AnswersFor(counts, alone, lastMin, cd, most, least) ==>
         NoStall(MovedCounts(counts, most, least), alone, busy, least, NextCd(cd))
  }

  // Both answers are cores not donated.
  lemma AnswersUndonated(l: Load, most: nat, least: nat)
    requires LoadOk(l) && Answers(l, most, least)
    ensures most < |l.alone| == |l.sys.cores| == |l.sys.counts| && least < |l.alone|
    ensures l.alone[most] == 0 && l.alone[least] == 0
  {
    ChosenUndonated(l.sys.counts, l.alone, most);
    if l.cd == 0 {
      ChosenUndonated(l.sys.counts, l.alone, least);
    }
  }

  lemma ShiftEndsIff(l: Load)
    requires LoadOk(l) && Giving(l.sys, l.alone)
    ensures ShiftEnds(l) <==> NoStall(l.sys.counts, l.alone, BusyCores(l.sys), l.lastMin, l.cd)
  {
    forall most, least | Answers(l, most, least)
      ensures Balanceable(l.sys, most, least) <==> !Stalls(l.sys.counts, BusyCores(l.sys), most, least)
    {
      AnswersUndonated(l, most, least);
      BalanceableIff(l.sys, most, least);
    }
    AnswersSame(l);
  }

  lemma AnswersSame(l: Load)
    ensures forall most, least ::
              Answers(l, most, least) <==> AnswersFor(l.sys.counts, l.alone, l.lastMin, l.cd, most, least)
  {
  }

  lemma SameBusy(s: System, s': System)
    requires SameYarns(s, s') && |s'.cores| == |s.cores|
    requires forall c :: 0 <= c < |s.cores| ==> s'.cores[c].Some? == s.cores[c].Some?
    ensures BusyCores(s') == BusyCores(s)
  {
    assert SameLive(s, s');
    forall c | 0 <= c < |s.cores| ensures Busy(s'.cores[c]) == Busy(s.cores[c]) {
      assert Rosters(s')[c].out == Rosters(s)[c].out;
    }
  }

  lemma LevelledFacts(s: System, alone: seq<nat>, most: nat, least: nat, s': System)
    requires |s.cores| == |s.counts| && most < |s.cores| && least < |s.cores| && most != least
    requires Giving(s, alone) && alone[most] == 0 && alone[least] == 0 && Levelled(s, most, least, s')
    ensures |s'.cores| == |s.cores| && Giving(s', alone) && s'.counts == MovedCounts(s.counts, most, least)
    ensures forall c :: 0 <= c < |s.cores| ==> s'.cores[c].Some? == s.cores[c].Some?
  {
  }

  // A shift that ends keeps what the program keeps.
  lemma ShiftedOk(l: Load, most: nat, least: nat, l': Load)
    requires LoadOk(l) && Answers(l, most, least) && |l.sys.counts| == |l.sys.cores|
    requires Balanceable(l.sys, most, least) && Shifted(l, most, least, l')
    ensures LoadOk(l')
  {
    AnswersUndonated(l, most, least);
    LevelledBelow(l.sys, most, least, l'.sys, NONE);
    if l.cd == 0 {
      LeastHasScheduler(l, most, least);
    }
  }

  // The least loaded core, when it is not the most loaded too, is the target of a hoist.
  lemma LeastHasScheduler(l: Load, most: nat, least: nat)
    requires LoadOk(l) && Answers(l, most, least) && l.cd == 0 && |l.sys.counts| == |l.sys.cores|
    requires Balanceable(l.sys, most, least)
    ensures l.sys.counts[most] > l.sys.counts[least] && l.sys.cores[least].Some?
  {
    var shown := Shown(l.sys.counts, l.alone);
    AnswersUndonated(l, most, least);
    assert shown[most] == l.sys.counts[most] && shown[least] == l.sys.counts[least];
  }

  lemma ShiftedFacts(l: Load, most: nat, least: nat, l': Load)
    requires LoadOk(l) && Giving(l.sys, l.alone) && Answers(l, most, least) && most != least
    requires |l.sys.counts| == |l.sys.cores| && most < |l.sys.cores| && least < |l.sys.cores|
    requires Shifted(l, most, least, l')
    ensures LoadOk(l') && Giving(l'.sys, l'.alone) && BusyCores(l'.sys) == BusyCores(l.sys)
    ensures l'.sys.counts == MovedCounts(l.sys.counts, most, least)
    ensures l'.alone == l.alone && l'.lastMin == least && l'.cd == NextCd(l.cd)
  {
    AnswersUndonated(l, most, least);
    LevelledFacts(l.sys, l.alone, most, least, l'.sys);
    LevelledBelow(l.sys, most, least, l'.sys, NONE);
    SameBusy(l.sys, l'.sys);
  }

  // A shift that can end does end somewhere.
  lemma ShiftHappens(l: Load, most: nat, least: nat) returns (l': Load)
    requires SystemWf(l.sys) && Balanceable(l.sys, most, least)
    ensures Shifted(l, most, least, l')
  {
    var s := l.sys;
    l' := Load(s, l.alone, least, NextCd(l.cd));
    if s.counts[most] <= s.counts[least] {
      assert Along(s, most, least, [], s);
      SameYarnsNow(s);
    } else {
      PairAtWf(s, most, least);
      var p := PairAt(s, most, least);
      var run := LongRun(p, Needed(p.cs, p.ct));
      RebalanceExact(run, p);
      var now := WithPair(s, most, least, Last(run));
      AlongEnd(s, most, least, run, now);
      assert Along(s, most, least, run, now);
      l' := l'.(sys := now);
    }
  }

  ghost predicate SecondEnds(l: Load, most: nat, least: nat)
    requires most < |l.sys.cores| == |l.sys.counts| && least < |l.sys.cores|
  {
    forall l' :: Shifted(l, most, least, l') ==> ShiftEnds(l')
  }

  // What follows a shift with given answers.
  lemma SecondEndsIff(l: Load, most: nat, least: nat)
    requires LoadOk(l) && Giving(l.sys, l.alone) && Answers(l, most, least) && Balanceable(l.sys, most, least)
    ensures SecondEnds(l, most, least)
       <==> NoStall(MovedCounts(l.sys.counts, most, least), l.alone, BusyCores(l.sys), least, NextCd(l.cd))
  {
    forall l' | Shifted(l, most, least, l')
      ensures ShiftEnds(l')
         <==> NoStall(MovedCounts(l.sys.counts, most, least), l.alone, BusyCores(l.sys), least, NextCd(l.cd))
    {
      ShiftedFacts(l, most, least, l');
      ShiftEndsIff(l');
    }
    var l' := ShiftHappens(l, most, least);
    assert Shifted(l, most, least, l');
  }

  /** The whole round: with fair and round-robin schedulers on every core not donated it
      ends if and only if neither of its two shifts stalls, which the counts, the donated
      core, the busy cores and the remembered answer decide. */
  lemma RoundEndsIff(l: Load)
    requires LoadOk(l) && Giving(l.sys, l.alone)
    ensures RoundEnds(l) <==> NoStallTwice(l.sys.counts, l.alone, BusyCores(l.sys), l.lastMin, l.cd)
  {
    ShiftEndsIff(l);
    AnswersSame(l);
    if ShiftEnds(l) {
      forall most, least | Answers(l, most, least)
        ensures SecondEnds(l, most, least)
           <==> NoStall(MovedCounts(l.sys.counts, most, least), l.alone, BusyCores(l.sys), least, NextCd(l.cd))
      {
        SecondEndsIff(l, most, least);
      }
      RoundEndsSo(l);
    }
  }

  lemma RoundEndsSo(l: Load)
    requires ShiftEnds(l)
    ensures RoundEnds(l) <==> forall most, least :: Answers(l, most, least) ==> SecondEnds(l, most, least)
  {
    if RoundEnds(l) {
      forall most, least | Answers(l, most, least) ensures SecondEnds(l, most, least) {
      }
    }
    if forall most, least :: Answers(l, most, least) ==> SecondEnds(l, most, least) {
      forall most, least, l' | Answers(l, most, least) && Shifted(l, most, least, l') ensures ShiftEnds(l') {
        assert SecondEnds(l, most, least);
      }
    }
  }

  /** What a round makes of the counts: each shift takes half the excess, rounded up, from the
      first most loaded core to the least loaded one. */
  lemma RoundCounts(l: Load, r: Round, l': Load)
    requires LoadOk(l) && IsRound(l, r, l')
    ensures LoadOk(r.between) && LoadOk(l')
    ensures r.between.sys.counts == MovedCounts(l.sys.counts, r.most, r.least)
    ensures |MovedCounts(l.sys.counts, r.most, r.least)| == |l.sys.counts| == |l.sys.cores|
    ensures r.most' < |l.sys.cores| && r.least' < |l.sys.cores|
    ensures l'.sys.counts == MovedCounts(MovedCounts(l.sys.counts, r.most, r.least), r.most', r.least')
    ensures Sum(l'.sys.counts) == Sum(l.sys.counts)
  {
    ShiftedOk(l, r.most, r.least, r.between);
    ShiftedOk(r.between, r.most', r.least', l');
    LevelledCounts(l.sys, r.most, r.least, r.between.sys);
    LevelledCounts(r.between.sys, r.most', r.least', l'.sys);
  }

  lemma LevelledCounts(s: System, most: nat, least: nat, s': System)
    requires |s.cores| == |s.counts| && most < |s.cores| && least < |s.cores| && most != least
    requires Levelled(s, most, least, s')
    ensures s'.counts == MovedCounts(s.counts, most, least) && Sum(s'.counts) == Sum(s.counts)
  {
    SumUpdate(s.counts, most, s'.counts[most]);
    SumUpdate(s.counts[most := s'.counts[most]], least, s'.counts[least]);
    assert s'.counts == s.counts[most := s'.counts[most]][least := s'.counts[least]];
  }

  /** On two cores a round that ends leaves the counts at most one apart. */
  lemma RoundLevelsTwo(l: Load, r: Round, l': Load)
    requires LoadOk(l) && IsRound(l, r, l') && |l.sys.cores| == 2
    ensures |l'.sys.counts| == 2
    ensures l'.sys.counts[0] <= l'.sys.counts[1] + 1 && l'.sys.counts[1] <= l'.sys.counts[0] + 1
  {
    ShiftedOk(l, r.most, r.least, r.between);
    var t := r.between;
    AnswersUndonated(t, r.most', r.least');
    assert Shown(t.sys.counts, t.alone) == t.sys.counts;
  }

  // Fair or round robin, and not busy with its only job.
  ghost predicate CanGive(o: Option<Core>, count: nat) {
    o.Some? && !o.value.Staircase? && (count == 1 ==> Out(o.value) == multiset{})
  }

  lemma BusyWithMore(s: System, c: nat)
    requires SystemWf(s) && c < |s.cores| && CanGive(s.cores[c], s.counts[c])
    ensures BusyCores(s)[c] ==> s.counts[c] > 1
  {
    Queues(s, c);
  }

  /** The first shift ends unless both searches answer one core. With the least load looked
      up, that is when all counts but those of donated cores are equal; with it remembered,
      when the core remembered is the first most loaded one. */
  lemma FirstShift(l: Load, most: nat, least: nat)
    requires LoadOk(l) && Answers(l, most, least)
    requires forall c :: 0 <= c < |l.sys.cores| && l.alone[c] == 0 ==> CanGive(l.sys.cores[c], l.sys.counts[c])
    ensures |l.sys.counts| == |l.sys.cores| && (Balanceable(l.sys, most, least) <==> most != least)
    ensures l.cd == 0 ==>
              (Balanceable(l.sys, most, least) <==>
               exists i, j :: 0 <= i < |l.sys.counts| && 0 <= j < |l.sys.counts| && l.alone[i] == l.alone[j] == 0
                              && l.sys.counts[i] != l.sys.counts[j])
    ensures l.cd > 0 ==>
              (Balanceable(l.sys, most, least) <==> !IsFirstMost(Shown(l.sys.counts, l.alone), l.alone, l.lastMin))
  {
    AnswersUndonated(l, most, least);
    BusyWithMore(l.sys, most);
    BalanceableIff(l.sys, most, least);
    if l.cd == 0 {
      SameCoreIff(l.sys.counts, l.alone, most, least);
    }
  }

  /** With all cores but one donated that core is asked to give to itself. */
  lemma OneCoreLeft(l: Load)
    requires LoadOk(l) && forall c :: 0 < c < |l.alone| ==> l.alone[c] != 0
    ensures !ShiftEnds(l)
  {
    var shown := Shown(l.sys.counts, l.alone);
    assert shown[0] == l.sys.counts[0] && forall c :: 0 < c < |shown| ==> shown[c] == NONE;
    assert Answers(l, 0, 0) && !Balanceable(l.sys, 0, 0);
  }

  // When neither of two shifts on two cores stalls.
  ghost predicate TwoCoresFine(counts: seq<nat>, lastMin: nat, cd: nat)
    requires |counts| == 2
  {
    if cd == 0 then counts[0] > counts[1] && (counts[0] - counts[1]) % 2 == 0
    else if cd == 1 then (counts[0] + counts[1]) % 2 == 1 && counts[lastMin % 2] < counts[1 - lastMin % 2]
    else lastMin == 1 && counts[0] >= counts[1] && (counts[0] - counts[1]) % 2 == 0
  }

  /** On two cores, while the answer of the first shift is remembered for the second, the
      second seldom ends: the target is now level or one ahead, so unless core 0 gave and the
      excess was even it is chosen as the most loaded too. Whether a core is running a job
      makes no difference. */
  lemma SecondShift(l: Load, most: nat, least: nat, l': Load, most': nat, least': nat)
    requires |l.sys.cores| == |l.sys.counts| == 2 && l.cd != 1 && Answers(l, most, least)
    requires least < 2 && most != least && l.alone == l'.alone == Zeros(2)
    requires Levelled(l.sys, most, least, l'.sys) && l'.lastMin == least && l'.cd == NextCd(l.cd)
    requires Answers(l', most', least')
    ensures Balanceable(l'.sys, most', least') <==> TwoCoresFine(l.sys.counts, l.lastMin, l.cd)
  {
    TwoAnswers(l.sys.counts, l.lastMin, l.cd, most, least);
    TwoAnswers(l'.sys.counts, l'.lastMin, l'.cd, most', least');
  }

  function Leader(counts: seq<nat>): nat
    requires |counts| == 2
  {
    if counts[0] >= counts[1] then 0 else 1
  }

  function Follower(counts: seq<nat>, lastMin: nat, cd: nat): nat
    requires |counts| == 2
  {
    if cd > 0 then lastMin else if counts[0] <= counts[1] then 0 else 1
  }

  lemma TwoAnswers(counts: seq<nat>, lastMin: nat, cd: nat, most: nat, least: nat)
    requires |counts| == 2
    ensures AnswersFor(counts, Zeros(2), lastMin, cd, most, least)
       <==> most == Leader(counts) && least == Follower(counts, lastMin, cd)
  {
    var zeros := Zeros(2);
    assert zeros[0] == 0 && zeros[1] == 0;
    assert Shown(counts, zeros) == counts;
  }

  lemma TwoNoStall(counts: seq<nat>, busy: seq<bool>, lastMin: nat, cd: nat)
    requires |counts| == |busy| == 2 && (cd > 0 ==> lastMin < 2)
    ensures NoStall(counts, Zeros(2), busy, lastMin, cd)
       <==> !Stalls(counts, busy, Leader(counts), Follower(counts, lastMin, cd))
  {
    forall most, least
      ensures AnswersFor(counts, Zeros(2), lastMin, cd, most, least)
         <==> most == Leader(counts) && least == Follower(counts, lastMin, cd)
    {
      TwoAnswers(counts, lastMin, cd, most, least);
    }
    assert AnswersFor(counts, Zeros(2), lastMin, cd, Leader(counts), Follower(counts, lastMin, cd));
  }

  ghost predicate TwoShifts(counts: seq<nat>, busy: seq<bool>, lastMin: nat, cd: nat)
    requires |counts| == |busy| == 2 && (cd > 0 ==> lastMin < 2)
  {
    var most, least := Leader(counts), Follower(counts, lastMin, cd);
    && NoStall(counts, Zeros(2), busy, lastMin, cd)
    && NoStall(MovedCounts(counts, most, least), Zeros(2), busy, least, NextCd(cd))
  }

  lemma TwoNoStallTwice(counts: seq<nat>, busy: seq<bool>, lastMin: nat, cd: nat)
    requires |counts| == |busy| == 2 && (cd > 0 ==> lastMin < 2)
    ensures NoStallTwice(counts, Zeros(2), busy, lastMin, cd) <==> TwoShifts(counts, busy, lastMin, cd)
  {
    forall most, least
      ensures AnswersFor(counts, Zeros(2), lastMin, cd, most, least)
         <==> most == Leader(counts) && least == Follower(counts, lastMin, cd)
    {
      TwoAnswers(counts, lastMin, cd, most, least);
    }
    assert AnswersFor(counts, Zeros(2), lastMin, cd, Leader(counts), Follower(counts, lastMin, cd));
  }

  lemma TwoShiftsIff(counts: seq<nat>, busy: seq<bool>, lastMin: nat, cd: nat)
    requires |counts| == |busy| == 2 && (cd > 0 ==> lastMin < 2)
    requires forall c :: 0 <= c < 2 && busy[c] ==> counts[c] > 1
    ensures TwoShifts(counts, busy, lastMin, cd) <==> TwoCoresFine(counts, lastMin, cd)
  {
    TwoNoStall(counts, busy, lastMin, cd);
    var most, least := Leader(counts), Follower(counts, lastMin, cd);
    var moved := MovedCounts(counts, most, least);
    TwoNoStall(moved, busy, least, NextCd(cd));
    if most != least {
      MovedTwo(counts, most, least);
    }
  }

  // After a shift the two counts are level, or the target is one ahead.
  lemma MovedTwo(counts: seq<nat>, most: nat, least: nat)
    requires |counts| == 2 && most < 2 && least < 2 && most != least && counts[most] >= counts[least]
    ensures var moved := MovedCounts(counts, most, least);
            && |moved| == 2
            && moved[least] - moved[most] == (counts[most] - counts[least]) % 2
            && (counts[most] > counts[least] ==> moved[least] > counts[least])
  {
  }

  /** The round on two cores, for every remembered answer. With nothing remembered core 0
      must have more jobs by an even number; with the answer to be given once more the
      counts must differ by an odd number and the core remembered be behind; with it to be
      given twice more that core must be core 1, and core 0 level or ahead by an even
      number. While core 1 is donated no round ends. */
  lemma TwoCoreRound(l: Load)
    requires LoadOk(l) && |l.sys.cores| == 2
    requires forall c :: 0 <= c < 2 && l.alone[c] == 0 ==> CanGive(l.sys.cores[c], l.sys.counts[c])
    ensures RoundEnds(l) <==> l.alone[1] == 0 && TwoCoresFine(l.sys.counts, l.lastMin, l.cd)
  {
    if l.alone[1] != 0 {
      OneCoreLeft(l);
    } else {
      assert l.alone == Zeros(2);
      RoundEndsIff(l);
      BusyWithMore(l.sys, 0);
      BusyWithMore(l.sys, 1);
      TwoNoStallTwice(l.sys.counts, BusyCores(l.sys), l.lastMin, l.cd);
      TwoShiftsIff(l.sys.counts, BusyCores(l.sys), l.lastMin, l.cd);
    }
  }
}
