/** Runs of a new staircase that use its budgets up: a sixth yarn of normal priority that
    never runs, a scheduler dead with three quarters of its time unspent, and one with no
    time left at all. */
module StaircaseDrain {
  import opened Scheduling
  import opened StaircaseBlocks
  import opened StaircaseRuns
  import opened StaircaseEpochs
  import opened StaircaseFates

  // ---- runs one after another ----

  // es is legal and leads from s to s'. It opens where Legal(s, es) is named.
  ghost predicate Leads(s: Stairs, es: seq<Event>, s': Stairs) {
    forall fs {:trigger Legal(s, fs)} :: fs == es ==> Legal(s, fs) && Run(s, fs) == s'
  }

  lemma TailOfBoth<T>(a: seq<T>, b: seq<T>)
    requires a != []
    ensures (a + b)[0] == a[0] && (a + b)[1..] == a[1..] + b
  {
  }

  lemma {:induction false} RunThrough(s: Stairs, es: seq<Event>, fs: seq<Event>)
    requires Legal(s, es) && Legal(Run(s, es), fs)
    ensures Legal(s, es + fs) && Run(s, es + fs) == Run(Run(s, es), fs)
    ensures Arrivals(es + fs) == Arrivals(es) + Arrivals(fs)
    decreases |es|
  {
    if es == [] {
      assert es + fs == fs;
    } else {
      RunThrough(Step(s, es[0]), es[1..], fs);
      TailOfBoth(es, fs);
    }
  }

  lemma LeadsThrough(s: Stairs, es: seq<Event>, t: Stairs, fs: seq<Event>, u: Stairs)
    requires Leads(s, es, t) && Leads(t, fs, u)
    ensures Leads(s, es + fs, u) && Arrivals(es + fs) == Arrivals(es) + Arrivals(fs)
  {
    assert Legal(s, es) && Legal(t, fs);
    RunThrough(s, es, fs);
  }

  lemma LeadsOne(s: Stairs, e: Event)
    requires Enabled(s, e)
    ensures Leads(s, [e], Step(s, e))
    ensures Arrivals([e]) == if e.Arrive? then 1 else 0
  {
    assert Legal(s, [e]) && [e][1..] == [];
    assert Run(Step(s, e), [e][1..]) == Step(s, e);
  }

  lemma LeadsNowhere(s: Stairs)
    ensures Leads(s, [], s)
  {
    assert Legal(s, []);
  }

  // ---- a scheduler with at most one job ----

  function Rows(): (qs: seq<seq<Entry>>)
    ensures |qs| == LAYERS
  {
    seq(LAYERS, _ => [])
  }

  function With(l: nat, e: Entry): (qs: seq<seq<Entry>>)
    requires l < LAYERS
    ensures |qs| == LAYERS
  {
    Rows()[l := [e]]
  }

  // No job anywhere; a and x are the budgets of the two blocks.
  ghost predicate Bare(s: Stairs, a: seq<nat>, x: seq<nat>) {
    && s.out.None? && s.st.timeslice > 0 && |a| == |x| == LAYERS
    && s.st.active == Block(a, Rows()) && s.st.exhausted == Block(x, Rows())
  }

  // One job, queued at level l of the block with budgets h.
  ghost predicate Single(s: Stairs, h: seq<nat>, o: seq<nat>, l: nat, e: Entry) {
    && s.out.None? && s.st.timeslice > 0 && |h| == |o| == LAYERS && l < LAYERS
    && e.lastLevel == l && e.originalLevel < LAYERS && 0 < e.timeslice <= s.st.timeslice
    && (|| (s.st.active == Block(h, With(l, e)) && s.st.exhausted == Block(o, Rows()))
        || (s.st.active == Block(o, Rows()) && s.st.exhausted == Block(h, With(l, e))))
  }

  // Everything but the blocks and the job out.
  ghost predicate Rest(s: Stairs, s': Stairs, charge: nat) {
    s'.st.timeslice == s.st.timeslice && s'.charged == s.charged + charge && s.seen <= s'.seen
  }

  lemma NoneEligible(b: Block)
    requires Shaped(b) && b.queues == Rows()
    ensures FirstEligible(b) == LAYERS
  {
  }

  lemma OneEligible(b: Block, l: nat, e: Entry)
    requires Shaped(b) && l < LAYERS && b.queues == With(l, e) && b.timeslices[l] != 0
    ensures FirstEligible(b) == l && TakeHead(b, l) == Block(b.timeslices, Rows())
  {
    FirstEligibleUnique(b, l);
    assert [e][1..] == [];
    assert b.queues[l := []] == Rows();
  }

  lemma Arrives(s: Stairs, a: seq<nat>, x: seq<nat>, prio: Priority) returns (es: seq<Event>, s': Stairs, e: Entry)
    requires Bare(s, a, x)
    ensures Leads(s, es, s') && Single(s', a, x, StartLevel(prio), e) && e.timeslice == s.st.timeslice
    ensures Rest(s, s', 0) && Arrivals(es) == 1
  {
    var pid := FreshPid(s.seen);
    var l := StartLevel(prio);
    e := Entry(pid, s.st.timeslice, 0, l, l);
    LeadsOne(s, Arrive(pid, prio));
    es, s' := [Arrive(pid, prio)], Step(s, Arrive(pid, prio));
    assert [] + [e] == [e];
    assert Append(s.st.active, l, e) == Block(a, With(l, e));
  }

  // The job is handed out, a slice r long.
  lemma Runs(s: Stairs, h: seq<nat>, o: seq<nat>, l: nat, e: Entry) returns (s': Stairs, r: nat)
    requires Single(s, h, o, l, e) && h[l] != 0
    ensures Enabled(s, Dispatch) && s' == Step(s, Dispatch)
    ensures r == Min(e.timeslice, Min(h[l], s.st.timeslice)) && s'.out == Some(e.(lastTimeslice := r))
    ensures s'.st == Staircase(Block(h, Rows()), Block(o, Rows()), s.st.timeslice) && Rest(s, s', 0)
    ensures Select(s.st).1 == s'.out
  {
    r := Min(e.timeslice, Min(h[l], s.st.timeslice));
    s' := Step(s, Dispatch);
    OneEligible(Block(h, With(l, e)), l, e);
    NoneEligible(Block(o, Rows()));
  }

  // It ends: a whole slice is charged to its level.
  lemma Ends(s: Stairs, h: seq<nat>, o: seq<nat>, l: nat, e: Entry) returns (es: seq<Event>, s': Stairs, r: nat)
    requires Single(s, h, o, l, e) && h[l] >= s.st.timeslice && e.timeslice == s.st.timeslice
    ensures Leads(s, es, s') && r == s.st.timeslice && Bare(s', h[l := h[l] - r], o) && Rest(s, s', r)
    ensures Arrivals(es) == 0
  {
    var s1;
    s1, r := Runs(s, h, o, l, e);
    LeadsOne(s, Dispatch);
    LeadsOne(s1, Finish);
    s' := Step(s1, Finish);
    es := [Dispatch] + [Finish];
    LeadsThrough(s, [Dispatch], s1, [Finish], s');
  }

  // It hands its slice back: one level down in the other block, nothing charged.
  lemma Descends(s: Stairs, h: seq<nat>, o: seq<nat>, l: nat, e: Entry)
    returns (es: seq<Event>, s': Stairs, e': Entry)
    requires Single(s, h, o, l, e) && h[l] != 0 && l < LAYERS - 1
    ensures Leads(s, es, s') && Single(s', o, h, l + 1, e') && e'.timeslice == e.timeslice && Rest(s, s', 0)
  {
    var s1, r := Runs(s, h, o, l, e);
    LeadsOne(s, Dispatch);
    LeadsOne(s1, Return(r));
    s' := Step(s1, Return(r));
    e' := Stepped(s1.out.value, 0, s.st.timeslice);
    SpendNothing(s1.st.active, l);
    assert [] + [e'] == [e'];
    assert Append(s1.st.exhausted, l + 1, e') == Block(o, With(l + 1, e'));
    es := [Dispatch] + [Return(r)];
    LeadsThrough(s, [Dispatch], s1, [Return(r)], s');
  }

  predicate Odd(n: nat) { n > 0 && !Odd(n - 1) }

  // Down to the target level, over levels with budget in both blocks.
  lemma {:induction false} WalksDown(s: Stairs, h: seq<nat>, o: seq<nat>, l: nat, e: Entry, target: nat)
    returns (es: seq<Event>, s': Stairs, e': Entry)
    requires Single(s, h, o, l, e) && l <= target < LAYERS
    requires forall m :: l <= m < target ==> h[m] > 0 && o[m] > 0
    ensures Leads(s, es, s') && e'.timeslice == e.timeslice && Rest(s, s', 0)
    ensures if Odd(target - l) then Single(s', o, h, target, e') else Single(s', h, o, target, e')
    decreases target - l
  {
    if l == target {
      es, s', e' := [], s, e;
      LeadsNowhere(s);
    } else {
      var fs, t, e1 := Descends(s, h, o, l, e);
      es, s', e' := WalksDown(t, o, h, l + 1, e1, target);
      LeadsThrough(s, fs, t, es, s');
      es := fs + es;
    }
  }

  // A yarn arrives, walks down to level l and ends there. It lands in the block with the
  // budgets h.
  lemma SpendsAt(s: Stairs, a: seq<nat>, x: seq<nat>, prio: Priority, l: nat, h: seq<nat>, o: seq<nat>)
    returns (es: seq<Event>, s': Stairs)
    requires Bare(s, a, x) && StartLevel(prio) <= l < LAYERS
    requires forall m :: StartLevel(prio) <= m < l ==> a[m] > 0 && x[m] > 0
    requires (h, o) == if Odd(l - StartLevel(prio)) then (x, a) else (a, x)
    requires h[l] >= s.st.timeslice
    ensures Leads(s, es, s') && Bare(s', h[l := h[l] - s.st.timeslice], o) && Rest(s, s', s.st.timeslice)
  {
    var es1, s1, e1 := Arrives(s, a, x, prio);
    var es2, s2, e2 := WalksDown(s1, a, x, StartLevel(prio), e1, l);
    var es3, s3, r := Ends(s2, h, o, l, e2);
    LeadsThrough(s1, es2, s2, es3, s3);
    LeadsThrough(s, es1, s1, es2 + es3, s3);
    es, s' := es1 + (es2 + es3), s3;
  }

  // Select with no job about swaps the blocks.
  lemma Flips(s: Stairs, a: seq<nat>, x: seq<nat>) returns (es: seq<Event>, s': Stairs)
    requires Bare(s, a, x)
    ensures Leads(s, es, s') && Bare(s', x, a) && Rest(s, s', 0)
  {
    NoneEligible(s.st.active);
    NoneEligible(s.st.exhausted);
    LeadsOne(s, Dispatch);
    es, s' := [Dispatch], Step(s, Dispatch);
  }

  // The blocks have the same budgets, except at level l where they have p and q slices.
  ghost predicate Level(s: Stairs, a: seq<nat>, x: seq<nat>, l: nat, p: nat, q: nat) {
    && Bare(s, a, x) && l < LAYERS
    && (forall m :: 0 <= m < LAYERS && m != l ==> a[m] == x[m])
    && a[l] == p * s.st.timeslice && x[l] == q * s.st.timeslice
  }

  lemma OneLess(p: nat, t: nat)
    requires p > 0
    ensures p * t >= t && p * t - t == (p - 1) * t
  {
  }

  // One slice of level l is used up, in the block that has one.
  lemma SpendsOne(s: Stairs, a: seq<nat>, x: seq<nat>, prio: Priority, l: nat, p: nat, q: nat)
    returns (es: seq<Event>, s': Stairs, a': seq<nat>, x': seq<nat>, p': nat, q': nat)
    requires Level(s, a, x, l, p, q) && p + q > 0 && StartLevel(prio) <= l
    requires forall m :: StartLevel(prio) <= m < l ==> a[m] > 0
    ensures Leads(s, es, s') && Level(s', a', x', l, p', q') && p' + q' == p + q - 1
    ensures forall m :: 0 <= m < LAYERS && m != l ==> a'[m] == a[m]
    ensures Rest(s, s', s.st.timeslice)
  {
    var odd := Odd(l - StartLevel(prio));
    if (if odd then q else p) > 0 {
      OneLess(if odd then q else p, s.st.timeslice);
      var h, o := if odd then x else a, if odd then a else x;
      es, s' := SpendsAt(s, a, x, prio, l, h, o);
      a', x' := h[l := h[l] - s.st.timeslice], o;
      p', q' := (if odd then q else p) - 1, if odd then p else q;
    } else {
      OneLess(if odd then p else q, s.st.timeslice);
      var fs, t := Flips(s, a, x);
      var h, o := if odd then a else x, if odd then x else a;
      es, s' := SpendsAt(t, x, a, prio, l, h, o);
      a', x' := h[l := h[l] - s.st.timeslice], o;
      p', q' := (if odd then p else q) - 1, if odd then q else p;
      LeadsThrough(s, fs, t, es, s');
      es := fs + es;
    }
  }

  lemma {:induction false} Drains(s: Stairs, a: seq<nat>, x: seq<nat>, prio: Priority, l: nat, p: nat, q: nat)
    returns (es: seq<Event>, s': Stairs, a': seq<nat>)
    requires Level(s, a, x, l, p, q) && StartLevel(prio) <= l
    requires forall m :: StartLevel(prio) <= m < l ==> a[m] > 0
    ensures Leads(s, es, s') && Bare(s', a', a') && a' == a[l := 0]
    ensures Rest(s, s', (p + q) * s.st.timeslice)
    decreases p + q
  {
    if p + q == 0 {
      es, s', a' := [], s, a;
      LeadsNowhere(s);
      assert a == x == a[l := 0];
    } else {
      var fs, t, a1, x1, p1, q1 := SpendsOne(s, a, x, prio, l, p, q);
      OneLess(p + q, s.st.timeslice);
      es, s', a' := Drains(t, a1, x1, prio, l, p1, q1);
      LeadsThrough(s, fs, t, es, s');
      es := fs + es;
      assert a1[l := 0] == a[l := 0];
    }
  }

  // ---- from a new scheduler ----

  lemma NewIsBare(ts: nat) returns (a: seq<nat>)
    requires ts > 0
    ensures Bare(Init(ts), a, a) && Init(ts).charged == 0
    ensures forall m :: 0 <= m < LAYERS ==> a[m] == 5 * ts
  {
    a := FullBlock(ts).timeslices;
    assert FullBlock(ts) == Block(a, Rows());
  }

  lemma SingleStuck(s: Stairs, h: seq<nat>, o: seq<nat>, l: nat, e: Entry)
    requires Single(s, h, o, l, e) && h[l] == 0
    ensures Stuck(s, e.pid)
  {
    assert With(l, e)[l][0].pid == e.pid;
    assert StuckAt(s.st.active, l, e.pid) || StuckAt(s.st.exhausted, l, e.pid);
  }

  // Normal yarns that come and go one by one, until k slices of their level are left.
  lemma {:induction false} NormalsEnd(s: Stairs, a: seq<nat>, x: seq<nat>, k: nat)
    returns (es: seq<Event>, s': Stairs, a': seq<nat>)
    requires Bare(s, a, x) && a[4] == k * s.st.timeslice
    ensures Leads(s, es, s') && Bare(s', a', x) && a'[4] == 0 && Arrivals(es) == k
    ensures Rest(s, s', k * s.st.timeslice)
    decreases k
  {
    if k == 0 {
      es, s', a' := [], s, a;
      LeadsNowhere(s);
    } else {
      OneLess(k, s.st.timeslice);
      var es1, s1, e := Arrives(s, a, x, Normal);
      var es2, s2, r := Ends(s1, a, x, 4, e);
      LeadsThrough(s, es1, s1, es2, s2);
      es, s', a' := NormalsEnd(s2, a[4 := a[4] - r], x, k - 1);
      LeadsThrough(s, es1 + es2, s2, es, s');
      es := es1 + es2 + es;
    }
  }

  /** Six yarns of normal priority are enough: five come, run one slice each and end; the
      sixth is stuck as soon as it arrives, with 195 of the 200 slices unspent. */
  lemma SixthNeverRuns(ts: nat) returns (es: seq<Event>, pid: nat)
    requires ts > 0
    ensures Legal(Init(ts), es) && Arrivals(es) == 6
    ensures var s := Run(Init(ts), es); Stuck(s, pid) && s.charged == 5 * ts && Budget(s.st) == 195 * ts
  {
    var a := NewIsBare(ts);
    var es1, s1, a1 := NormalsEnd(Init(ts), a, a, 5);
    var es2, s2, e := Arrives(s1, a1, a, Normal);
    LeadsThrough(Init(ts), es1, s1, es2, s2);
    es, pid := es1 + es2, e.pid;
    assert Legal(Init(ts), es);
    SingleStuck(s2, a1, a, 4, e);
    BudgetConserved(ts, es);
  }

  // The priority that starts at level 2 * k.
  function Starting(k: nat): (prio: Priority)
    requires k < 5
    ensures StartLevel(prio) == 2 * k
  {
    if k == 0 then VeryHigh else if k == 1 then High else if k == 2 then Normal else if k == 3 then Low else VeryLow
  }

  // The levels at which yarns start, below 2 * k.
  lemma {:induction false} StartsDrain(s: Stairs, a: seq<nat>, k: nat)
    returns (es: seq<Event>, s': Stairs, a': seq<nat>)
    requires Bare(s, a, a) && k <= 5
    requires forall m :: 0 <= m < k ==> a[2 * m] == 5 * s.st.timeslice
    requires forall m :: k <= m < 5 ==> a[2 * m] == 0
    ensures Leads(s, es, s') && Bare(s', a', a') && forall m :: 0 <= m < 5 ==> a'[2 * m] == 0
    ensures Rest(s, s', k * (10 * s.st.timeslice))
    decreases k
  {
    if k == 0 {
      es, s', a' := [], s, a;
      LeadsNowhere(s);
    } else {
      OneLess(k, 10 * s.st.timeslice);
      var fs, t, a1 := Drains(s, a, a, Starting(k - 1), 2 * (k - 1), 5, 5);
      es, s', a' := StartsDrain(t, a1, k - 1);
      LeadsThrough(s, fs, t, es, s');
      es := fs + es;
    }
  }

  lemma BareDead(s: Stairs, a: seq<nat>)
    requires Bare(s, a, a) && forall m :: 0 <= m < 5 ==> a[2 * m] == 0
    ensures Dead(s)
  {
    NoneEligible(s.st.active);
    forall prio: Priority ensures a[StartLevel(prio)] == 0 {
      assert StartLevel(prio) == 2 * (StartLevel(prio) / 2);
    }
  }

  /** Fifty slices are enough to stop a scheduler for ever, three quarters of its time
      unspent. */
  lemma DeadEarly(ts: nat) returns (es: seq<Event>)
    requires ts > 0
    ensures Legal(Init(ts), es)
    ensures var s := Run(Init(ts), es); Dead(s) && s.charged == 50 * ts && Budget(s.st) == 150 * ts
  {
    var a := NewIsBare(ts);
    var s', a';
    es, s', a' := StartsDrain(Init(ts), a, 5);
    assert Legal(Init(ts), es);
    BareDead(s', a');
    BudgetConserved(ts, es);
  }

  lemma {:induction false} AllDrain(s: Stairs, a: seq<nat>, l: nat) returns (es: seq<Event>, s': Stairs, a': seq<nat>)
    requires Bare(s, a, a) && l <= LAYERS
    requires forall m :: 0 <= m < l ==> a[m] == 5 * s.st.timeslice
    requires forall m :: l <= m < LAYERS ==> a[m] == 0
    ensures Leads(s, es, s') && Bare(s', a', a') && forall m :: 0 <= m < LAYERS ==> a'[m] == 0
    decreases l
  {
    if l == 0 {
      es, s', a' := [], s, a;
      LeadsNowhere(s);
    } else {
      var fs, t, a1 := Drains(s, a, a, VeryHigh, l - 1, 5, 5);
      es, s', a' := AllDrain(t, a1, l - 1);
      LeadsThrough(s, fs, t, es, s');
      es := fs + es;
    }
  }

  /** All 200 slices can be spent. */
  lemma AllSpent(ts: nat) returns (es: seq<Event>)
    requires ts > 0
    ensures Legal(Init(ts), es) && Run(Init(ts), es).out.None? && Run(Init(ts), es).charged == 200 * ts
  {
    var a := NewIsBare(ts);
    var s', a';
    es, s', a' := AllDrain(Init(ts), a, LAYERS);
    assert Legal(Init(ts), es);
    BudgetConserved(ts, es);
    SumConstant(a', 0);
  }

  // ---- a job alone ----

  // It uses its whole slice and goes back to its own level in the other block.
  lemma Uses(s: Stairs, h: seq<nat>, o: seq<nat>, l: nat, e: Entry)
    returns (s1: Stairs, s': Stairs, e': Entry)
    requires Single(s, h, o, l, e) && h[l] >= s.st.timeslice && e.timeslice == s.st.timeslice && e.originalLevel == l
    ensures Enabled(s, Dispatch) && s1 == Step(s, Dispatch) && Select(s.st).1 == s1.out
    ensures s1.out == Some(e.(lastTimeslice := s.st.timeslice))
    ensures Enabled(s1, Return(0)) && s' == Step(s1, Return(0)) && Rest(s, s', s.st.timeslice)
    ensures Single(s', o, h[l := h[l] - s.st.timeslice], l, e')
    ensures e'.timeslice == s.st.timeslice && e'.originalLevel == l && e'.pid == e.pid
  {
    var r;
    s1, r := Runs(s, h, o, l, e);
    s' := Step(s1, Return(0));
    e' := Stepped(s1.out.value, r, s.st.timeslice);
    assert [] + [e'] == [e'];
    assert Append(s1.st.exhausted, l, e') == Block(o, With(l, e'));
  }

  // n slices for one job, and no more.
  ghost predicate Slices(ps: seq<Entry>, pid: nat, ts: nat, n: nat) {
    |ps| == n && forall i :: 0 <= i < |ps| ==> ps[i].pid == pid && ps[i].lastTimeslice == ts
  }

  lemma SlicesCons(first: Entry, rest: seq<Entry>, pid: nat, ts: nat, n: nat)
    requires first.pid == pid && first.lastTimeslice == ts && Slices(rest, pid, ts, n)
    ensures Slices([first] + rest, pid, ts, n + 1)
  {
  }

  lemma TurnThen(s: Stairs, s1: Stairs, s': Stairs, fs: seq<Event>)
    requires Enabled(s, Dispatch) && s1 == Step(s, Dispatch) && Select(s.st).1 == s1.out && s1.out.Some?
    requires Enabled(s1, Return(0)) && s' == Step(s1, Return(0)) && Legal(s', fs)
    ensures var es := [Dispatch, Return(0)] + fs;
            && Legal(s, es) && Run(s, es) == Run(s', fs) && Arrivals(es) == Arrivals(fs)
            && Picks(s, es) == [s1.out.value] + Picks(s', fs)
  {
    var es := [Dispatch, Return(0)] + fs;
    assert es[1..] == [Return(0)] + fs && es[1..][1..] == fs;
    PicksCons(s, es);
    PicksCons(s1, es[1..]);
  }

  lemma UsesOne(s: Stairs, h: seq<nat>, o: seq<nat>, l: nat, e: Entry, p: nat)
    returns (s1: Stairs, s': Stairs, h': seq<nat>, e': Entry)
    requires Single(s, h, o, l, e) && e.timeslice == s.st.timeslice && e.originalLevel == l
    requires p > 0 && h[l] == p * s.st.timeslice
    ensures Enabled(s, Dispatch) && s1 == Step(s, Dispatch) && Select(s.st).1 == s1.out
    ensures s1.out == Some(e.(lastTimeslice := s.st.timeslice))
    ensures Enabled(s1, Return(0)) && s' == Step(s1, Return(0)) && Rest(s, s', s.st.timeslice)
    ensures Single(s', o, h', l, e') && h'[l] == (p - 1) * s.st.timeslice
    ensures e'.timeslice == s.st.timeslice && e'.originalLevel == l && e'.pid == e.pid
  {
    OneLess(p, s.st.timeslice);
    s1, s', e' := Uses(s, h, o, l, e);
    h' := h[l := h[l] - s.st.timeslice];
  }

  lemma {:induction false} UsesAll(s: Stairs, h: seq<nat>, o: seq<nat>, l: nat, e: Entry, p: nat, q: nat)
    returns (es: seq<Event>)
    requires Single(s, h, o, l, e) && e.timeslice == s.st.timeslice && e.originalLevel == l
    requires h[l] == p * s.st.timeslice && o[l] == q * s.st.timeslice && q <= p <= q + 1
    ensures Legal(s, es) && Arrivals(es) == 0 && Slices(Picks(s, es), e.pid, s.st.timeslice, p + q)
    ensures Stuck(Run(s, es), e.pid)
    decreases p + q
  {
    if p == 0 {
      es := [];
      SingleStuck(s, h, o, l, e);
    } else {
      var s1, s', h', e' := UsesOne(s, h, o, l, e, p);
      var fs := UsesAll(s', o, h', l, e', q, p - 1);
      es := [Dispatch, Return(0)] + fs;
      TurnThen(s, s1, s', fs);
      SlicesCons(s1.out.value, Picks(s', fs), e.pid, s.st.timeslice, p + q - 1);
    }
  }

  /** A job that has the scheduler to itself and always uses its slice gets exactly ten
      slices, five from each block, and never runs again. */
  lemma TenSlices(ts: nat, prio: Priority) returns (s: Stairs, es: seq<Event>)
    requires ts > 0
    ensures Enabled(Init(ts), Arrive(1, prio)) && s == Step(Init(ts), Arrive(1, prio))
    ensures Legal(s, es) && Arrivals(es) == 0 && Slices(Picks(s, es), 1, ts, 10) && Stuck(Run(s, es), 1)
  {
    var a := NewIsBare(ts);
    var l := StartLevel(prio);
    var e := Entry(1, ts, 0, l, l);
    s := Step(Init(ts), Arrive(1, prio));
    assert [] + [e] == [e];
    assert Append(Init(ts).st.active, l, e) == Block(a, With(l, e));
    es := UsesAll(s, a, a, l, e, 5, 5);
  }
}
