/** The reentrant yarn lock, one step for each shared read, write or compare-and-swap,
    taken by any number of yarns in any interleaving. */
module YarnLock {

  datatype Lock = Lock(lock: nat, depth: nat, sitter: nat)

  // Where a yarn is inside lock() or unlock(). Idle is outside both.
  datatype Pc =
    | Idle
    | Test                       // lock(): about to read lock->lock
    | DeepenRead                 // lock->depth++ by the owner: the read
    | DeepenWrite(seen: nat)     //   and the write
    | Grab                       // the compare-and-swap from 0
    | MarkSitter                 // it failed: about to store the sitter
    | YieldToOwner               // about to read lock->lock for the yield
    | FirstDepth                 // it succeeded: about to set the depth to 1
    | CheckSitter
    | ClearSitter
    | ShallowRead                // unlock(): lock->depth--, the read
    | ShallowWrite(seen: nat)    //   and the write
    | DepthTest                  // about to compare the depth with 0
    | Release                    // about to store 0 in lock->lock
    | YieldToSitter              // about to read the sitter for the yield

  // held: lock() calls that returned, less unlock() calls made.
  datatype Yarn = Yarn(pc: Pc, held: nat)

  datatype State = State(l: Lock, yarns: map<nat, Yarn>)

  ghost predicate Init(s: State) {
    && s.l == Lock(0, 0, 0)
    && 0 !in s.yarns
    && forall p :: p in s.yarns ==> s.yarns[p] == Yarn(Idle, 0)
  }

  // Yarn p, now y, as it leaves the step, and the lock as it leaves it.
  ghost predicate Move(l: Lock, p: nat, y: Yarn, l': Lock, y': Yarn) {
    match y.pc
    case Idle =>
      && l' == l
      && (y' == y.(pc := Test)
          || (y.held > 0 && y' == Yarn(ShallowRead, y.held - 1)))  // only a holder unlocks
    case Test => l' == l && y' == y.(pc := if l.lock == p then DeepenRead else Grab)
    case DeepenRead => l' == l && y' == y.(pc := DeepenWrite(l.depth))
    case DeepenWrite(seen) => l' == l.(depth := seen + 1) && y' == Yarn(Idle, y.held + 1)
    case Grab =>
      if l.lock == 0 then l' == l.(lock := p) && y' == y.(pc := FirstDepth)
      else l' == l && y' == y.(pc := MarkSitter)
    case MarkSitter => l' == l.(sitter := p) && y' == y.(pc := YieldToOwner)
    case YieldToOwner => l' == l && y' == y.(pc := Grab)
    case FirstDepth => l' == l.(depth := 1) && y' == y.(pc := CheckSitter)
    case CheckSitter =>
      l' == l && y' == if l.sitter == p then y.(pc := ClearSitter) else Yarn(Idle, y.held + 1)
    case ClearSitter => l' == l.(sitter := 0) && y' == Yarn(Idle, y.held + 1)
    case ShallowRead => l' == l && y' == y.(pc := ShallowWrite(l.depth))
    case ShallowWrite(seen) => seen > 0 && l' == l.(depth := seen - 1) && y' == y.(pc := DepthTest)
    case DepthTest => l' == l && y' == y.(pc := if l.depth == 0 then Release else Idle)
    case Release => l' == l.(lock := 0) && y' == y.(pc := YieldToSitter)
    case YieldToSitter => l' == l && y' == y.(pc := Idle)
  }

  ghost predicate Step(s: State, p: nat, s': State) {
    && p in s.yarns
    && s'.yarns.Keys == s.yarns.Keys
    && (forall q :: q in s.yarns && q != p ==> s'.yarns[q] == s.yarns[q])
    && Move(s.l, p, s.yarns[p], s'.l, s'.yarns[p])
  }

  // The depth and the owner's unmatched calls, at each point of the owner's code.
  ghost predicate OwnerOk(y: Yarn, depth: nat) {
    match y.pc
    case Idle => depth == y.held > 0
    case Test => depth == y.held > 0
    case DeepenRead => depth == y.held > 0
    case DeepenWrite(seen) => seen == depth == y.held > 0
    case FirstDepth => depth == y.held == 0
    case CheckSitter => depth == 1 && y.held == 0
    case ClearSitter => depth == 1 && y.held == 0
    case ShallowRead => depth == y.held + 1
    case ShallowWrite(seen) => seen == depth == y.held + 1
    case DepthTest => depth == y.held
    case Release => depth == y.held == 0
    case _ => false
  }

  ghost predicate OutsiderOk(y: Yarn) {
    && y.held == 0
    && (y.pc.Idle? || y.pc.Test? || y.pc.Grab? || y.pc.MarkSitter? || y.pc.YieldToOwner? || y.pc.YieldToSitter?)
  }

  ghost predicate Inv(s: State) {
    && 0 !in s.yarns
    && (s.l.lock == 0 ==> s.l.depth == 0)
    && (s.l.lock != 0 ==> s.l.lock in s.yarns)
    && forall p :: p in s.yarns ==>
         if p == s.l.lock then OwnerOk(s.yarns[p], s.l.depth) else OutsiderOk(s.yarns[p])
  }

  /** Every step of every yarn keeps the invariant, whatever the sitter field holds. */
  lemma StepInv(s: State, p: nat, s': State)
    requires Inv(s) && Step(s, p, s')
    ensures Inv(s')
  {
  }

  // A run: each state follows from the one before by a step of the yarn named.
  ghost predicate IsRun(ss: seq<State>, ps: seq<nat>) {
    && |ss| == |ps| + 1
    && Init(ss[0])
    && forall i :: 0 <= i < |ps| ==> Step(ss[i], ps[i], ss[i + 1])
  }

  lemma {:induction false} RunInv(ss: seq<State>, ps: seq<nat>, n: nat)
    requires IsRun(ss, ps) && n < |ss|
    ensures Inv(ss[n])
  {
    if n > 0 {
      RunInv(ss, ps, n - 1);
      StepInv(ss[n - 1], ps[n - 1], ss[n]);
    }
  }

  /** At every moment of every run at most one yarn holds the lock, and the lock word names
      it. */
  lemma MutualExclusion(ss: seq<State>, ps: seq<nat>, n: nat, p: nat, q: nat)
    requires IsRun(ss, ps) && n < |ss|
    requires p in ss[n].yarns && ss[n].yarns[p].held > 0
    requires q in ss[n].yarns && ss[n].yarns[q].held > 0
    ensures p == q == ss[n].l.lock
  {
    RunInv(ss, ps, n);
  }

  /** A yarn outside the lock code has calls unmatched exactly when the lock word names it,
      and then the depth is the number of them. */
  lemma DepthCounts(ss: seq<State>, ps: seq<nat>, n: nat, p: nat)
    requires IsRun(ss, ps) && n < |ss| && p in ss[n].yarns && ss[n].yarns[p].pc.Idle?
    ensures ss[n].yarns[p].held > 0 <==> ss[n].l.lock == p
    ensures ss[n].yarns[p].held > 0 ==> ss[n].l.depth == ss[n].yarns[p].held
  {
    RunInv(ss, ps, n);
  }

  /** The plain read in lock() is safe: it sees the caller's own pid exactly when the
      caller holds the lock already. */
  lemma UnsynchronisedTestSound(ss: seq<State>, ps: seq<nat>, n: nat)
    requires IsRun(ss, ps) && n < |ps| && ps[n] in ss[n].yarns && ss[n].yarns[ps[n]].pc.Test?
    ensures ps[n] in ss[n + 1].yarns
    ensures ss[n + 1].yarns[ps[n]].pc.DeepenRead? <==> ss[n].yarns[ps[n]].held > 0
  {
    RunInv(ss, ps, n);
  }

  /** Release is exact: the lock word leaves p only in p's own unlock(), when no call of p
      is left unmatched; and an unlock() goes on to release exactly then. */
  lemma ReleaseExact(ss: seq<State>, ps: seq<nat>, n: nat, p: nat)
    requires IsRun(ss, ps) && n < |ps| && p == ss[n].l.lock != 0
    ensures ss[n + 1].l.lock != p ==>
              && ps[n] == p && ss[n].yarns[p].pc.Release? && ss[n].yarns[p].held == 0
              && ss[n + 1].l.lock == 0
    ensures ps[n] == p && ss[n].yarns[p].pc.DepthTest? ==>
              (ss[n + 1].yarns[p].pc.Release? <==> ss[n].yarns[p].held == 0)
  {
    RunInv(ss, ps, n);
    RunInv(ss, ps, n + 1);
  }
}
