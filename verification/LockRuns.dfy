/** What the reentrant lock does for its callers: from every state it can be in, every yarn
    can be granted it, to any depth, and can give it back. */
module LockRuns {
  import opened YarnLock

  /** The compare-and-swap puts the caller's pid in the word exactly when the word is 0, which
      is when nobody has a call unmatched or has just been granted the lock; otherwise it
      changes nothing. */
  lemma SwapExact(ss: seq<State>, ps: seq<nat>, n: nat)
    requires IsRun(ss, ps) && n < |ps| && ps[n] in ss[n].yarns && ss[n].yarns[ps[n]].pc.Grab?
    ensures ss[n + 1].l == if ss[n].l.lock == 0 then ss[n].l.(lock := ps[n]) else ss[n].l
    ensures ss[n].l.lock == 0 <==> forall q :: q in ss[n].yarns ==> OutsiderOk(ss[n].yarns[q])
  {
    RunInv(ss, ps, n);
    var s := ss[n];
    if s.l.lock != 0 {
      assert OwnerOk(s.yarns[s.l.lock], s.l.depth);
    }
  }

  // ---- runs from a state ----

  ghost predicate Follows(ss: seq<State>, ps: seq<nat>, s: State, s': State) {
    && |ss| == |ps| + 1 && ss[0] == s && ss[|ps|] == s'
    && forall n :: 0 <= n < |ps| ==> Step(ss[n], ps[n], ss[n + 1])
  }

  ghost predicate Path(s: State, s': State) { exists ss, ps :: Follows(ss, ps, s, s') }

  // Some run leads from s to s'; it opens where Path is named.
  ghost predicate Leads(s: State, s': State) {
    forall t {:trigger Path(s, t)} :: t == s' ==> Path(s, t)
  }

  // What the constructions below carry along.
  ghost predicate Open(s0: State, s: State) { Leads(s0, s) && Inv(s) }

  lemma OpenNow(s: State)
    requires Inv(s)
    ensures Open(s, s)
  {
    assert Follows([s], [], s, s) && Path(s, s);
  }

  lemma LeadsStep(s0: State, s: State, p: nat, s': State)
    requires Leads(s0, s) && Step(s, p, s')
    ensures Leads(s0, s')
  {
    assert Path(s0, s);
    var ss, ps :| Follows(ss, ps, s0, s);
    var ss', ps' := ss + [s'], ps + [p];
    forall n | 0 <= n < |ps'| ensures Step(ss'[n], ps'[n], ss'[n + 1]) {
      if n < |ps| {
        assert Step(ss[n], ps[n], ss[n + 1]);
      }
    }
    assert Follows(ss', ps', s0, s') && Path(s0, s');
  }

  // One step of yarn p.
  lemma Goes(s0: State, s: State, p: nat, l: Lock, y: Yarn) returns (s': State)
    requires Open(s0, s) && p in s.yarns && Move(s.l, p, s.yarns[p], l, y)
    ensures s' == State(l, s.yarns[p := y]) && Open(s0, s')
  {
    s' := State(l, s.yarns[p := y]);
    assert s'.yarns[p] == y && Step(s, p, s');
    StepInv(s, p, s');
    LeadsStep(s0, s, p, s');
  }

  // Outside the lock code with k calls unmatched, everybody else as in s.
  ghost predicate At(s: State, p: nat, k: nat, s': State) {
    && p in s.yarns && s'.yarns == s.yarns[p := Yarn(Idle, k)]
    && (if k > 0 then s'.l.lock == p && s'.l.depth == k else s'.l.lock == 0 && s'.l.depth == 0)
  }

  // ---- the parts of the owner's code ----

  lemma Deepens(s0: State, s: State, p: nat) returns (s': State)
    requires Open(s0, s) && p in s.yarns && p == s.l.lock
    requires var pc := s.yarns[p].pc; pc.Idle? || pc.Test? || pc.DeepenRead? || pc.DeepenWrite?
    ensures Open(s0, s') && At(s, p, s.yarns[p].held + 1, s')
  {
    var k, t := s.yarns[p].held, s;
    assert OwnerOk(s.yarns[p], s.l.depth);
    if t.yarns[p].pc.Idle? {
      t := Goes(s0, t, p, t.l, Yarn(Test, k));
    }
    if t.yarns[p].pc.Test? {
      t := Goes(s0, t, p, t.l, Yarn(DeepenRead, k));
    }
    if t.yarns[p].pc.DeepenRead? {
      t := Goes(s0, t, p, t.l, Yarn(DeepenWrite(k), k));
    }
    s' := Goes(s0, t, p, t.l.(depth := k + 1), Yarn(Idle, k + 1));
  }

  lemma ComesIn(s0: State, s: State, p: nat) returns (s': State)
    requires Open(s0, s) && p in s.yarns && p == s.l.lock
    requires var pc := s.yarns[p].pc; pc.FirstDepth? || pc.CheckSitter? || pc.ClearSitter?
    ensures Open(s0, s') && At(s, p, 1, s')
  {
    var t := s;
    assert OwnerOk(s.yarns[p], s.l.depth);
    if t.yarns[p].pc.FirstDepth? {
      t := Goes(s0, t, p, t.l.(depth := 1), Yarn(CheckSitter, 0));
    }
    if t.yarns[p].pc.CheckSitter? && t.l.sitter == p {
      t := Goes(s0, t, p, t.l, Yarn(ClearSitter, 0));
    }
    s' := Goes(s0, t, p, if t.yarns[p].pc.ClearSitter? then t.l.(sitter := 0) else t.l, Yarn(Idle, 1));
  }

  lemma Shallows(s0: State, s: State, p: nat) returns (s': State)
    requires Open(s0, s) && p in s.yarns && p == s.l.lock
    requires var pc := s.yarns[p].pc; pc.ShallowRead? || pc.ShallowWrite? || pc.DepthTest? || pc.Release?
    ensures Open(s0, s') && At(s, p, s.yarns[p].held, s')
  {
    var k, t := s.yarns[p].held, s;
    assert OwnerOk(s.yarns[p], s.l.depth);
    if t.yarns[p].pc.ShallowRead? {
      t := Goes(s0, t, p, t.l, Yarn(ShallowWrite(k + 1), k));
    }
    if t.yarns[p].pc.ShallowWrite? {
      t := Goes(s0, t, p, t.l.(depth := k), Yarn(DepthTest, k));
    }
    if t.yarns[p].pc.DepthTest? {
      t := Goes(s0, t, p, t.l, Yarn(if k == 0 then Release else Idle, k));
    }
    if t.yarns[p].pc.Release? {
      t := Goes(s0, t, p, t.l.(lock := 0), Yarn(YieldToSitter, 0));
      t := Goes(s0, t, p, t.l, Yarn(Idle, 0));
    }
    s' := t;
  }

  lemma GivesOne(s0: State, s: State, p: nat) returns (s': State)
    requires Open(s0, s) && p in s.yarns && s.yarns[p].pc.Idle? && s.yarns[p].held > 0
    ensures Open(s0, s') && At(s, p, s.yarns[p].held - 1, s')
  {
    var t := Goes(s0, s, p, s.l, Yarn(ShallowRead, s.yarns[p].held - 1));
    s' := Shallows(s0, t, p);
  }

  // The owner gives the lock back, call by call.
  lemma {:induction false} LetsGo(s0: State, s: State, p: nat) returns (s': State)
    requires Open(s0, s) && p in s.yarns && At(s, p, s.yarns[p].held, s)
    ensures Open(s0, s') && At(s, p, 0, s')
    decreases s.yarns[p].held
  {
    if s.yarns[p].held == 0 {
      s' := s;
    } else {
      var t := GivesOne(s0, s, p);
      s' := LetsGo(s0, t, p);
    }
  }

  // Whoever has the lock comes out of it.
  lemma GetsOut(s0: State, s: State) returns (s': State)
    requires Open(s0, s) && s.l.lock != 0
    ensures Open(s0, s') && At(s, s.l.lock, 0, s')
  {
    var p := s.l.lock;
    assert OwnerOk(s.yarns[p], s.l.depth);
    var pc, t := s.yarns[p].pc, s;
    if pc.Test? || pc.DeepenRead? || pc.DeepenWrite? {
      t := Deepens(s0, s, p);
    } else if pc.FirstDepth? || pc.CheckSitter? || pc.ClearSitter? {
      t := ComesIn(s0, s, p);
    } else if !pc.Idle? {
      t := Shallows(s0, s, p);
    }
    s' := LetsGo(s0, t, p);
  }

  // A free lock is granted to whoever asks.
  lemma GetsIn(s0: State, s: State, p: nat) returns (s': State)
    requires Open(s0, s) && p in s.yarns && s.l.lock == 0
    ensures Open(s0, s') && At(s, p, 1, s')
  {
    var t := s;
    assert OutsiderOk(s.yarns[p]);
    if t.yarns[p].pc.YieldToSitter? {
      t := Goes(s0, t, p, t.l, Yarn(Idle, 0));
    }
    if t.yarns[p].pc.Idle? {
      t := Goes(s0, t, p, t.l, Yarn(Test, 0));
    }
    if t.yarns[p].pc.MarkSitter? {
      t := Goes(s0, t, p, t.l.(sitter := p), Yarn(YieldToOwner, 0));
    }
    if !t.yarns[p].pc.Grab? {
      t := Goes(s0, t, p, t.l, Yarn(Grab, 0));
    }
    t := Goes(s0, t, p, t.l.(lock := p), Yarn(FirstDepth, 0));
    s' := ComesIn(s0, t, p);
  }

  // lock() k times more.
  lemma {:induction false} LocksAgain(s0: State, s: State, p: nat, k: nat) returns (s': State)
    requires Open(s0, s) && p in s.yarns && s.yarns[p].held > 0 && At(s, p, s.yarns[p].held, s)
    ensures Open(s0, s') && At(s, p, s.yarns[p].held + k, s')
    decreases k
  {
    if k == 0 {
      s' := s;
    } else {
      var t := Deepens(s0, s, p);
      s' := LocksAgain(s0, t, p, k - 1);
    }
  }

  /** From every state of every run, whoever has the lock and wherever everybody is in its
      code, a yarn can be granted it and lock it n deep, and can then give it back. */
  lemma AlwaysObtainable(s: State, p: nat, n: nat) returns (t: State, u: State)
    requires Inv(s) && p in s.yarns && n > 0
    ensures Path(s, t) && p in t.yarns && t.yarns[p] == Yarn(Idle, n) && t.l.lock == p && t.l.depth == n
    ensures Path(t, u) && u.yarns == t.yarns[p := Yarn(Idle, 0)] && u.l.lock == u.l.depth == 0
  {
    OpenNow(s);
    var free := s;
    if s.l.lock != 0 {
      free := GetsOut(s, s);
    }
    t := GetsIn(s, free, p);
    t := LocksAgain(s, t, p, n - 1);
    OpenNow(t);
    u := LetsGo(t, t, p);
    assert Path(s, t) && Path(t, u);
  }

  // ---- from a new lock ----

  // The step from s to s' by yarn q is a call of lock(), of unlock(), by p.
  predicate CallsLock(s: State, q: nat, s': State, p: nat) {
    q == p && p in s.yarns && p in s'.yarns && s.yarns[p].pc.Idle? && s'.yarns[p].pc.Test?
  }

  predicate CallsUnlock(s: State, q: nat, s': State, p: nat) {
    q == p && p in s.yarns && p in s'.yarns && s.yarns[p].pc.Idle? && s'.yarns[p].pc.ShallowRead?
  }

  // How many of each p makes in a run's first n steps.
  ghost function Locks(ss: seq<State>, ps: seq<nat>, n: nat, p: nat): nat
    requires n <= |ps| < |ss|
  {
    if n == 0 then 0
    else Locks(ss, ps, n - 1, p) + if CallsLock(ss[n - 1], ps[n - 1], ss[n], p) then 1 else 0
  }

  ghost function Unlocks(ss: seq<State>, ps: seq<nat>, n: nat, p: nat): nat
    requires n <= |ps| < |ss|
  {
    if n == 0 then 0
    else Unlocks(ss, ps, n - 1, p) + if CallsUnlock(ss[n - 1], ps[n - 1], ss[n], p) then 1 else 0
  }

  // In the middle of a lock() call.
  predicate Entering(pc: Pc) {
    pc.Test? || pc.DeepenRead? || pc.DeepenWrite? || pc.Grab? || pc.MarkSitter? || pc.YieldToOwner? || pc.FirstDepth?
    || pc.CheckSitter? || pc.ClearSitter?
  }

  // Calls that have returned, and the one in progress.
  function Taken(y: Yarn): nat { y.held + if Entering(y.pc) then 1 else 0 }

  lemma OneStep(s: State, q: nat, s': State, p: nat)
    requires Step(s, q, s') && p in s.yarns
    ensures Taken(s'.yarns[p]) + (if CallsUnlock(s, q, s', p) then 1 else 0)
         == Taken(s.yarns[p]) + (if CallsLock(s, q, s', p) then 1 else 0)
  {
  }

  lemma {:induction false} TakenIsCalls(ss: seq<State>, ps: seq<nat>, n: nat, p: nat)
    requires IsRun(ss, ps) && n <= |ps| && p in ss[n].yarns
    ensures Locks(ss, ps, n, p) == Taken(ss[n].yarns[p]) + Unlocks(ss, ps, n, p)
  {
    if n > 0 {
      assert Step(ss[n - 1], ps[n - 1], ss[n - 1 + 1]);
      TakenIsCalls(ss, ps, n - 1, p);
      OneStep(ss[n - 1], ps[n - 1], ss[n], p);
    }
  }

  /** In every run from a new lock, a yarn outside the lock code has the lock exactly when it
      made more lock() than unlock() calls, and the depth is the difference. */
  lemma DepthIsCalls(ss: seq<State>, ps: seq<nat>, n: nat, p: nat)
    requires IsRun(ss, ps) && n <= |ps| && p in ss[n].yarns && ss[n].yarns[p].pc.Idle?
    ensures Locks(ss, ps, n, p) >= Unlocks(ss, ps, n, p)
    ensures ss[n].l.lock == p <==> Locks(ss, ps, n, p) > Unlocks(ss, ps, n, p)
    ensures ss[n].l.lock == p ==> ss[n].l.depth == Locks(ss, ps, n, p) - Unlocks(ss, ps, n, p)
  {
    TakenIsCalls(ss, ps, n, p);
    RunInv(ss, ps, n);
  }
}
