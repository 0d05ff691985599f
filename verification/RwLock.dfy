/** The reader/writer lock packed into one word, one step for each shared read, write,
    compare-and-swap or add, taken by any number of yarns in any interleaving. Words are
    32 bits; the bit operations are written out on integers. */
module RwLock {
  import opened Scheduling

  const BIT30: nat := 0x4000_0000
  const BIT31: nat := 0x8000_0000
  const WORD: nat := 0x1_0000_0000

  function Readers(w: nat): nat { w % BIT30 }                        // w & 0x3FFFFFFF
  predicate WriteLocked(w: nat) { w / BIT30 % 2 == 1 }               // w & 0x40000000
  predicate WriteWaiting(w: nat) { w / BIT31 % 2 == 1 }              // w & 0x80000000
  function OrWaiting(w: nat): nat { if WriteWaiting(w) then w else w + BIT31 }
  function ClearWaiting(w: nat): nat { if WriteWaiting(w) then w - BIT31 else w }

  datatype Pc =
    | Idle
    | ReadLoad                       // read_lock(): about to load the word
    | ReadCas(seen: nat)
    | ReadYield
    | WriteLoad                      // write_lock(): about to load the word
    | WriteOr(seen: nat)             // the CAS that sets bit 31
    | WriteYield
    | SetWriter
    | Spin                           // about to load the word and test its low 31 bits
    | WriteCas                       // the CAS from bit 31 to bit 30
    | FreeLoad                       // write_unlock(): the first load
    | FreeLoadAgain(seen: nat)       //   the second, whose bit 31 is cleared
    | FreeCas(seen: nat, put: nat)
    | FreeYield
    | ClearWriter                    // the CAS on the writer field
    | LastYield

  // holds: read locks held; writing: inside, from the granting CAS to the releasing one.
  datatype Yarn = Yarn(pc: Pc, holds: nat, writing: bool)

  // grants counts the write locks granted so far. Yarn i has pid i + 1.
  datatype State = State(word: nat, writer: nat, yarns: seq<Yarn>, grants: nat)

  ghost predicate Init(s: State) {
    && s.word == 0 && s.writer == 0 && s.grants == 0
    && forall i :: 0 <= i < |s.yarns| ==> s.yarns[i] == Yarn(Idle, 0, false)
  }

  ghost function Holds(yarns: seq<Yarn>): seq<nat> {
    seq(|yarns|, i requires 0 <= i < |yarns| => yarns[i].holds)
  }

  ghost function TotalReads(s: State): nat { Sum(Holds(s.yarns)) }

  ghost predicate Moves(s: State, i: nat, s': State)
    requires i < |s.yarns| == |s'.yarns|
  {
    var y, y' := s.yarns[i], s'.yarns[i];
    match y.pc
    case Idle =>
      && s'.writer == s.writer && s'.grants == s.grants
      && (|| (s'.word == s.word && y' == y.(pc := ReadLoad))
          || (s'.word == s.word && y' == y.(pc := WriteLoad))
          || (s'.word == s.word && y.writing && y' == y.(pc := FreeLoad))
          || (y.holds > 0 && s'.word == (s.word + WORD - 1) % WORD  // read_unlock(): one atomic add
              && y' == Yarn(if WriteWaiting(s.word) then LastYield else Idle, y.holds - 1, y.writing)))
    case ReadLoad =>
      && Same(s, s')
      && y' == y.(pc := if WriteLocked(s.word) || WriteWaiting(s.word) then ReadYield else ReadCas(s.word))
    case ReadCas(seen) =>
      && s'.writer == s.writer && s'.grants == s.grants
      && if s.word == seen then s'.word == seen + 1 && y' == Yarn(Idle, y.holds + 1, y.writing)
         else s'.word == s.word && y' == y.(pc := ReadYield)
    case ReadYield => Same(s, s') && y' == y.(pc := ReadLoad)
    case WriteLoad => Same(s, s') && y' == y.(pc := WriteOr(s.word))
    case WriteOr(seen) =>
      && s'.writer == s.writer && s'.grants == s.grants
      && if s.word == seen then s'.word == OrWaiting(seen) && y' == y.(pc := SetWriter)
         else s'.word == s.word && y' == y.(pc := WriteYield)
    case WriteYield => Same(s, s') && y' == y.(pc := WriteLoad)
    case SetWriter => s' == s.(writer := i + 1, yarns := s'.yarns) && y' == y.(pc := Spin)
    case Spin => Same(s, s') && y' == y.(pc := if s.word % BIT31 != 0 then Spin else WriteCas)
    case WriteCas =>
      && s'.writer == s.writer
      && if s.word == BIT31 then s'.word == BIT30 && s'.grants == s.grants + 1 && y' == Yarn(Idle, y.holds, true)
         else s'.word == s.word && s'.grants == s.grants && y' == y.(pc := Spin)
    case FreeLoad => Same(s, s') && y' == y.(pc := FreeLoadAgain(s.word))
    case FreeLoadAgain(seen) => Same(s, s') && y' == y.(pc := FreeCas(seen, ClearWaiting(s.word)))
    case FreeCas(seen, put) =>
      && s'.writer == s.writer && s'.grants == s.grants
      && if s.word == seen then s'.word == put && y' == Yarn(ClearWriter, y.holds, false)
         else s'.word == s.word && y' == y.(pc := FreeYield)
    case FreeYield => Same(s, s') && y' == y.(pc := FreeLoad)
    case ClearWriter =>
      && s'.word == s.word && s'.grants == s.grants
      && if s.writer == i + 1 then s'.writer == 0 && y' == y.(pc := Idle)
         else s'.writer == s.writer && y' == y.(pc := LastYield)
    case LastYield => Same(s, s') && y' == y.(pc := Idle)
  }

  ghost predicate Same(s: State, s': State) {
    s'.word == s.word && s'.writer == s.writer && s'.grants == s.grants
  }

  ghost predicate Step(s: State, i: nat, s': State) {
    && i < |s.yarns| == |s'.yarns|
    && s'.yarns == s.yarns[i := s'.yarns[i]]
    && Moves(s, i, s')
  }

  // ---- safety ----

  ghost predicate YarnOk(y: Yarn, word: nat) {
    && (y.writing ==> WriteLocked(word))
    && match y.pc
       case ReadCas(seen) => seen < BIT30
       case WriteOr(seen) => seen < WORD
       case FreeLoad => y.writing
       case FreeYield => y.writing
       case FreeLoadAgain(_) => y.writing
       case FreeCas(_, put) => y.writing && put == BIT30
       case ClearWriter => WriteLocked(word)
       case SetWriter => WriteLocked(word) || WriteWaiting(word)
       case Spin => WriteLocked(word) || WriteWaiting(word)
       case WriteCas => WriteLocked(word) || WriteWaiting(word)
       case _ => true
  }

  ghost predicate Inv(s: State) {
    && s.word < WORD
    && Readers(s.word) == TotalReads(s)
    && s.grants == (if WriteLocked(s.word) then 1 else 0)
    && (WriteLocked(s.word) ==> Readers(s.word) == 0)
    && (forall i :: 0 <= i < |s.yarns| ==> YarnOk(s.yarns[i], s.word))
    && (forall i, j :: 0 <= i < |s.yarns| && 0 <= j < |s.yarns| && s.yarns[i].writing && s.yarns[j].writing ==> i == j)
  }

  lemma Bits(w: nat)
    requires w < WORD
    ensures w == Readers(w) + (if WriteLocked(w) then BIT30 else 0) + (if WriteWaiting(w) then BIT31 else 0)
    ensures Readers(OrWaiting(w)) == Readers(ClearWaiting(w)) == Readers(w)
    ensures WriteLocked(OrWaiting(w)) == WriteLocked(ClearWaiting(w)) == WriteLocked(w)
    ensures OrWaiting(w) < WORD && ClearWaiting(w) < BIT31
  {
  }

  lemma HoldsMove(s: State, i: nat, s': State)
    requires Step(s, i, s')
    ensures TotalReads(s') == TotalReads(s) - s.yarns[i].holds + s'.yarns[i].holds
    ensures s.yarns[i].holds <= TotalReads(s)
  {
    assert Holds(s'.yarns) == Holds(s.yarns)[i := s'.yarns[i].holds];
    SumUpdate(Holds(s.yarns), i, s'.yarns[i].holds);
  }

  // The word changes only as the packing allows.
  ghost predicate WordMoves(s: State, i: nat, s': State)
    requires i < |s.yarns| == |s'.yarns|
  {
    && s'.word < WORD
    && (WriteLocked(s.word) ==> WriteLocked(s'.word))
    && Readers(s'.word) == TotalReads(s')
    && s'.grants == (if WriteLocked(s'.word) then 1 else 0)
    && (WriteLocked(s'.word) ==> Readers(s'.word) == 0)
    && YarnOk(s'.yarns[i], s'.word)
    && (s'.yarns[i].writing && !s.yarns[i].writing ==> !WriteLocked(s.word))
  }

  // One reader more or fewer leaves the upper bits alone.
  lemma ReaderBits(w: nat, w': nat)
    requires w < WORD && ((w' == w + 1 && Readers(w) + 1 < BIT30) || (w' + 1 == w && Readers(w) > 0))
    ensures WriteLocked(w') == WriteLocked(w) && Readers(w') == Readers(w) + w' - w
  {
  }

  lemma ReadWord(s: State, i: nat, s': State)
    requires Inv(s) && Step(s, i, s') && TotalReads(s') < BIT30 && s'.yarns[i].holds != s.yarns[i].holds
    ensures WordMoves(s, i, s')
  {
    HoldsMove(s, i, s');
    assert YarnOk(s.yarns[i], s.word);
    ReaderBits(s.word, s'.word);
  }

  lemma WriteWord(s: State, i: nat, s': State)
    requires Inv(s) && Step(s, i, s') && s'.yarns[i].holds == s.yarns[i].holds && s'.word != s.word
    ensures WordMoves(s, i, s')
  {
    HoldsMove(s, i, s');
    Bits(s.word);
    assert YarnOk(s.yarns[i], s.word);
  }

  lemma SameWord(s: State, i: nat, s': State)
    requires Inv(s) && Step(s, i, s') && s'.yarns[i].holds == s.yarns[i].holds && s'.word == s.word
    ensures WordMoves(s, i, s')
  {
    HoldsMove(s, i, s');
    Bits(s.word);
    assert YarnOk(s.yarns[i], s.word);
  }

  lemma WordMove(s: State, i: nat, s': State)
    requires Inv(s) && Step(s, i, s') && TotalReads(s') < BIT30
    ensures WordMoves(s, i, s')
  {
    if s'.yarns[i].holds != s.yarns[i].holds {
      ReadWord(s, i, s');
    } else if s'.word != s.word {
      WriteWord(s, i, s');
    } else {
      SameWord(s, i, s');
    }
  }

  /** Every step keeps the invariant while fewer than 2^30 read locks are held. */
  lemma StepInv(s: State, i: nat, s': State)
    requires Inv(s) && Step(s, i, s') && TotalReads(s') < BIT30
    ensures Inv(s')
  {
    WordMove(s, i, s');
    forall j | 0 <= j < |s'.yarns| ensures YarnOk(s'.yarns[j], s'.word) {
      assert j != i ==> YarnOk(s.yarns[j], s.word);
    }
    forall j | 0 <= j < |s.yarns| && s.yarns[j].writing ensures WriteLocked(s.word) {
      assert YarnOk(s.yarns[j], s.word);
    }
  }

  ghost predicate IsRun(ss: seq<State>, who: seq<nat>) {
    && |ss| == |who| + 1
    && Init(ss[0])
    && (forall n :: 0 <= n < |who| ==> Step(ss[n], who[n], ss[n + 1]))
    && (forall n :: 0 <= n < |ss| ==> TotalReads(ss[n]) < BIT30)
  }

  lemma InitInv(s: State)
    requires Init(s)
    ensures Inv(s)
  {
    SumConstant(Holds(s.yarns), 0);
  }

  lemma {:induction false} RunInv(ss: seq<State>, who: seq<nat>, n: nat)
    requires IsRun(ss, who) && n < |ss|
    ensures Inv(ss[n])
  {
    if n == 0 {
      InitInv(ss[0]);
    } else {
      RunInv(ss, who, n - 1);
      StepInv(ss[n - 1], who[n - 1], ss[n]);
    }
  }

  /** In every interleaving: never two writers inside, never a reader inside with a
      writer, and the low 30 bits of the word count the read locks held. */
  lemma Exclusion(ss: seq<State>, who: seq<nat>, n: nat)
    requires IsRun(ss, who) && n < |ss|
    ensures var s := ss[n];
            && Readers(s.word) == TotalReads(s)
            && (forall i, j :: 0 <= i < |s.yarns| && 0 <= j < |s.yarns| && s.yarns[i].writing && s.yarns[j].writing ==>
                  i == j)
            && ((exists i :: 0 <= i < |s.yarns| && s.yarns[i].writing) ==>
                  forall j :: 0 <= j < |s.yarns| ==> s.yarns[j].holds == 0)
  {
    RunInv(ss, who, n);
    var s := ss[n];
    if i :| 0 <= i < |s.yarns| && s.yarns[i].writing {
      assert YarnOk(s.yarns[i], s.word);
      SumZero(Holds(s.yarns));
      assert forall j :: 0 <= j < |s.yarns| ==> Holds(s.yarns)[j] == s.yarns[j].holds;
    }
  }

  /** write_unlock() clears bit 31 where write_lock() left bit 30: a lock grants writing
      at most once in its life, and from then on nobody gets in, reader or writer. */
  lemma {:induction false} GrantedOnce(ss: seq<State>, who: seq<nat>, n: nat, m: nat)
    requires IsRun(ss, who) && n <= m < |ss| && ss[n].grants > 0
    ensures ss[n].grants == ss[m].grants == 1
    ensures TotalReads(ss[m]) == 0 && WriteLocked(ss[m].word)
  {
    RunInv(ss, who, n);
    RunInv(ss, who, m);
    if n < m {
      GrantedOnce(ss, who, n, m - 1);
      RunInv(ss, who, m - 1);
      WordMove(ss[m - 1], who[m - 1], ss[m]);
    }
  }

  /** The bound on read locks is exact: one more on top of 2^30 - 1 turns the word into
      that of a write-locked lock. */
  lemma CarryIntoBit30(s: State, i: nat, s': State)
    requires Inv(s) && Step(s, i, s') && s.yarns[i].pc == ReadCas(s.word)
    ensures TotalReads(s') == BIT30 <==> WriteLocked(s'.word)
  {
    HoldsMove(s, i, s');
    assert YarnOk(s.yarns[i], s.word);
  }

  // ---- runs that get there ----

  // n yarns of which only the first has done anything.
  ghost function Alone(n: nat, word: nat, writer: nat, y: Yarn, grants: nat): State {
    State(word, writer, seq(n, i => if i == 0 then y else Yarn(Idle, 0, false)), grants)
  }

  ghost function RunTo(ss: seq<State>): State
    requires ss != []
  {
    ss[|ss| - 1]
  }

  lemma AloneReads(n: nat, word: nat, writer: nat, y: Yarn, grants: nat)
    requires n > 0
    ensures TotalReads(Alone(n, word, writer, y, grants)) == y.holds
  {
    var holds := Holds(Alone(n, word, writer, y, grants).yarns);
    var none := seq(n, _ => 0);
    assert holds == none[0 := y.holds];
    SumConstant(none, 0);
    SumUpdate(none, 0, y.holds);
  }

  // One more step of the first yarn.
  lemma OneMore(n: nat, ss: seq<State>, who: seq<nat>, word: nat, writer: nat, y: Yarn, grants: nat)
    returns (ss': seq<State>, who': seq<nat>)
    requires n > 0 && IsRun(ss, who) && |RunTo(ss).yarns| == n && y.holds < BIT30
    requires var s := RunTo(ss); s == Alone(n, s.word, s.writer, s.yarns[0], s.grants)
    requires Moves(RunTo(ss), 0, Alone(n, word, writer, y, grants))
    ensures IsRun(ss', who') && ss <= ss' && RunTo(ss') == Alone(n, word, writer, y, grants)
    ensures |ss'| == |ss| + 1
  {
    AloneReads(n, word, writer, y, grants);
    var s' := Alone(n, word, writer, y, grants);
    ss', who' := ss + [s'], who + [0];
    assert Step(RunTo(ss), 0, s');
  }

  lemma TakeWrite(n: nat) returns (ss: seq<State>, who: seq<nat>)
    requires n > 0
    ensures IsRun(ss, who) && RunTo(ss) == Alone(n, BIT30, 1, Yarn(Idle, 0, true), 1)
  {
    ss, who := [Alone(n, 0, 0, Yarn(Idle, 0, false), 0)], [];
    AloneReads(n, 0, 0, Yarn(Idle, 0, false), 0);
    ss, who := OneMore(n, ss, who, 0, 0, Yarn(WriteLoad, 0, false), 0);
    ss, who := OneMore(n, ss, who, 0, 0, Yarn(WriteOr(0), 0, false), 0);
    ss, who := OneMore(n, ss, who, BIT31, 0, Yarn(SetWriter, 0, false), 0);
    ss, who := OneMore(n, ss, who, BIT31, 1, Yarn(Spin, 0, false), 0);
    ss, who := OneMore(n, ss, who, BIT31, 1, Yarn(WriteCas, 0, false), 0);
    ss, who := OneMore(n, ss, who, BIT30, 1, Yarn(Idle, 0, true), 1);
  }

  lemma GiveBack(n: nat, ss: seq<State>, who: seq<nat>) returns (ss': seq<State>, who': seq<nat>)
    requires n > 0 && IsRun(ss, who) && RunTo(ss) == Alone(n, BIT30, 1, Yarn(Idle, 0, true), 1)
    ensures IsRun(ss', who') && ss <= ss' && RunTo(ss') == Alone(n, BIT30, 0, Yarn(Idle, 0, false), 1)
  {
    ss', who' := OneMore(n, ss, who, BIT30, 1, Yarn(FreeLoad, 0, true), 1);
    ss', who' := OneMore(n, ss', who', BIT30, 1, Yarn(FreeLoadAgain(BIT30), 0, true), 1);
    ss', who' := OneMore(n, ss', who', BIT30, 1, Yarn(FreeCas(BIT30, BIT30), 0, true), 1);
    ss', who' := OneMore(n, ss', who', BIT30, 1, Yarn(ClearWriter, 0, false), 1);
    ss', who' := OneMore(n, ss', who', BIT30, 0, Yarn(Idle, 0, false), 1);
  }

  /** A write lock is granted and given back, with nobody else near, and the word is left
      write-locked: from there on GrantedOnce applies. */
  lemma LeftWriteLocked(n: nat) returns (ss: seq<State>, who: seq<nat>, k: nat)
    requires n > 0
    ensures IsRun(ss, who) && k < |ss| && ss[k] == Alone(n, BIT30, 1, Yarn(Idle, 0, true), 1)
    ensures RunTo(ss) == Alone(n, BIT30, 0, Yarn(Idle, 0, false), 1) && WriteLocked(RunTo(ss).word)
  {
    var ss0, who0 := TakeWrite(n);
    k := |ss0| - 1;
    ss, who := GiveBack(n, ss0, who0);
    assert ss[k] == ss0[k];
  }

  // One yarn takes k read locks.
  lemma {:induction false} ReadsAgain(n: nat, k: nat) returns (ss: seq<State>, who: seq<nat>)
    requires n > 0 && k < BIT30
    ensures IsRun(ss, who) && RunTo(ss) == Alone(n, k, 0, Yarn(Idle, k, false), 0)
  {
    if k == 0 {
      ss, who := [Alone(n, 0, 0, Yarn(Idle, 0, false), 0)], [];
      AloneReads(n, 0, 0, Yarn(Idle, 0, false), 0);
    } else {
      ss, who := ReadsAgain(n, k - 1);
      ss, who := OneMore(n, ss, who, k - 1, 0, Yarn(ReadLoad, k - 1, false), 0);
      ss, who := OneMore(n, ss, who, k - 1, 0, Yarn(ReadCas(k - 1), k - 1, false), 0);
      ss, who := OneMore(n, ss, who, k, 0, Yarn(Idle, k, false), 0);
    }
  }

  /** The carry is reached: 2^30 - 1 read locks of one yarn and one more leave a word that
      says write-locked, with no write lock ever asked for. */
  lemma CarryReached(n: nat) returns (ss: seq<State>, who: seq<nat>, s': State)
    requires n > 0
    ensures IsRun(ss, who) && Step(RunTo(ss), 0, s')
    ensures TotalReads(s') == BIT30 && WriteLocked(s'.word) && s'.grants == 0
  {
    ss, who := ReadsAgain(n, BIT30 - 1);
    ss, who := OneMore(n, ss, who, BIT30 - 1, 0, Yarn(ReadLoad, BIT30 - 1, false), 0);
    ss, who := OneMore(n, ss, who, BIT30 - 1, 0, Yarn(ReadCas(BIT30 - 1), BIT30 - 1, false), 0);
    s' := Alone(n, BIT30, 0, Yarn(Idle, BIT30, false), 0);
    AloneReads(n, BIT30, 0, Yarn(Idle, BIT30, false), 0);
  }
}
