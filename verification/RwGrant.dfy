/** When the write lock of the reader/writer lock can still be granted: exactly while no
    yarn that holds a read lock has gone to wait for what it is itself in the way of. */
module RwGrant {
  import opened Scheduling
  import opened RwLock

  // Between setting bit 31 and the grant.
  predicate Wanting(pc: Pc) { pc.SetWriter? || pc.Spin? || pc.WriteCas? }

  predicate InRead(pc: Pc) { pc.ReadLoad? || pc.ReadCas? || pc.ReadYield? }

  predicate InWrite(pc: Pc) { pc.WriteLoad? || pc.WriteOr? || pc.WriteYield? || Wanting(pc) }

  // A reader that asks for the write lock, or asks to read again while a writer waits.
  predicate Blocked(y: Yarn, word: nat) {
    y.holds > 0 && (InWrite(y.pc) || (InRead(y.pc) && WriteWaiting(word)))
  }

  ghost predicate SomeoneAsks(s: State) {
    exists i :: 0 <= i < |s.yarns| && Wanting(s.yarns[i].pc)
  }

  // Bit 31 was set by a yarn that is still at it.
  ghost predicate Asked(s: State) {
    WriteWaiting(s.word) && !WriteLocked(s.word) ==> SomeoneAsks(s)
  }

  ghost predicate Sound(s: State) { Inv(s) && Asked(s) && TotalReads(s) < BIT30 }

  lemma WaitingMove(s: State, i: nat, s': State)
    requires Inv(s) && Step(s, i, s') && TotalReads(s') < BIT30 && s.grants == 0
    ensures WriteWaiting(s.word) ==> WriteWaiting(s'.word) || WriteLocked(s'.word)
    ensures WriteWaiting(s'.word) && !WriteWaiting(s.word) ==> s'.yarns[i].pc == SetWriter
  {
    HoldsMove(s, i, s');
    Bits(s.word);
    assert YarnOk(s.yarns[i], s.word);
    if s'.yarns[i].holds != s.yarns[i].holds {
      ReaderWaiting(s.word, s'.word);
    }
  }

  lemma ReaderWaiting(w: nat, w': nat)
    requires w < WORD && ((w' == w + 1 && Readers(w) + 1 < BIT30) || (w' + 1 == w && Readers(w) > 0))
    ensures WriteWaiting(w') == WriteWaiting(w)
  {
  }

  lemma AskedStep(s: State, i: nat, s': State)
    requires Sound(s) && Step(s, i, s') && TotalReads(s') < BIT30 && s.grants == 0
    ensures Sound(s')
  {
    StepInv(s, i, s');
    WaitingMove(s, i, s');
    WordMove(s, i, s');
    if WriteWaiting(s'.word) && !WriteLocked(s'.word) {
      if WriteWaiting(s.word) {
        var j :| 0 <= j < |s.yarns| && Wanting(s.yarns[j].pc);
        assert Wanting(s'.yarns[j].pc);
      } else {
        assert Wanting(s'.yarns[i].pc);
      }
    }
  }

  // ---- once blocked ----

  /** A blocked yarn keeps its read locks and stays blocked, so the write lock is never
      granted. */
  lemma BlockedStays(s: State, i: nat, s': State, b: nat)
    requires Inv(s) && Step(s, i, s') && TotalReads(s') < BIT30 && s.grants == 0
    requires b < |s.yarns| && Blocked(s.yarns[b], s.word)
    ensures s'.grants == 0 && Blocked(s'.yarns[b], s'.word)
  {
    WaitingMove(s, i, s');
    WordMove(s, i, s');
    StepInv(s, i, s');
    assert YarnOk(s.yarns[b], s.word);
    HasReader(s, b);
    HasReader(s', b);
  }

  lemma HasReader(s: State, b: nat)
    requires b < |s.yarns|
    ensures s.yarns[b].holds <= TotalReads(s)
  {
    assert Holds(s.yarns)[b] == s.yarns[b].holds;
    SumUpdate(Holds(s.yarns), b, 0);
  }

  // ---- runs from a state ----

  ghost predicate Follows(ss: seq<State>, who: seq<nat>, s: State, s': State) {
    && |ss| == |who| + 1 && ss[0] == s && ss[|who|] == s'
    && (forall n :: 0 <= n < |who| ==> Step(ss[n], who[n], ss[n + 1]))
    && (forall n :: 0 <= n < |ss| ==> TotalReads(ss[n]) < BIT30)
  }

  ghost predicate Path(s: State, s': State) { exists ss, who :: Follows(ss, who, s, s') }

  // Some run leads from s to s'; it opens where Path is named.
  ghost predicate Leads(s: State, s': State) {
    forall t {:trigger Path(s, t)} :: t == s' ==> Path(s, t)
  }

  lemma LeadsNow(s: State)
    requires TotalReads(s) < BIT30
    ensures Leads(s, s)
  {
    assert Follows([s], [], s, s) && Path(s, s);
  }

  lemma LeadsStep(s0: State, s: State, i: nat, s': State)
    requires Leads(s0, s) && Step(s, i, s') && TotalReads(s') < BIT30
    ensures Leads(s0, s')
  {
    assert Path(s0, s);
    var ss, who :| Follows(ss, who, s0, s);
    var ss', who' := ss + [s'], who + [i];
    forall n | 0 <= n < |who'| ensures Step(ss'[n], who'[n], ss'[n + 1]) {
      if n < |who| {
        assert Step(ss[n], who[n], ss[n + 1]);
      }
    }
    assert Follows(ss', who', s0, s') && Path(s0, s');
  }

  // What the constructions below carry along: no grant yet, reached from s0.
  ghost predicate Open(s0: State, s: State) { Leads(s0, s) && Sound(s) && s.grants == 0 }

  function Put(s: State, i: nat, word: nat, writer: nat, y: Yarn): State
    requires i < |s.yarns|
  {
    s.(word := word, writer := writer, yarns := s.yarns[i := y])
  }

  // One step of yarn i that grants nothing.
  lemma Goes(s0: State, s: State, i: nat, word: nat, writer: nat, y: Yarn) returns (s': State)
    requires Open(s0, s) && i < |s.yarns| && Moves(s, i, Put(s, i, word, writer, y))
    requires TotalReads(s) - s.yarns[i].holds + y.holds < BIT30
    ensures s' == Put(s, i, word, writer, y) && Open(s0, s')
    ensures TotalReads(s') == TotalReads(s) - s.yarns[i].holds + y.holds
  {
    s' := Put(s, i, word, writer, y);
    assert s'.yarns[i] == y && s'.yarns == s.yarns[i := s'.yarns[i]];
    assert Step(s, i, s');
    HoldsMove(s, i, s');
    AskedStep(s, i, s');
    LeadsStep(s0, s, i, s');
  }

  // ---- a reader lets go ----

  // A yarn outside the lock code gives back all its read locks.
  lemma {:induction false} LetsGo(s0: State, s: State, i: nat) returns (s': State)
    requires Open(s0, s) && i < |s.yarns| && s.yarns[i].pc.Idle? && !s.yarns[i].writing
    ensures Open(s0, s') && s'.yarns == s.yarns[i := Yarn(Idle, 0, false)]
    ensures WriteWaiting(s'.word) == WriteWaiting(s.word) && TotalReads(s') == TotalReads(s) - s.yarns[i].holds
    decreases s.yarns[i].holds
  {
    var y := s.yarns[i];
    if y.holds == 0 {
      s' := s;
      assert y == Yarn(Idle, 0, false);
    } else {
      HasReader(s, i);
      ReaderWaiting(s.word, s.word - 1);
      var pc := if WriteWaiting(s.word) then LastYield else Idle;
      var t := Goes(s0, s, i, s.word - 1, s.writer, Yarn(pc, y.holds - 1, false));
      if pc.LastYield? {
        t := Goes(s0, t, i, t.word, t.writer, Yarn(Idle, y.holds - 1, false));
      }
      s' := LetsGo(s0, t, i);
    }
  }

  // Before any grant nobody is giving the write lock back.
  lemma NobodyWrites(s: State, i: nat)
    requires Sound(s) && s.grants == 0 && i < |s.yarns|
    ensures !WriteLocked(s.word) && !s.yarns[i].writing
    ensures var pc := s.yarns[i].pc; pc.Idle? || pc.LastYield? || InRead(pc) || InWrite(pc)
  {
    assert YarnOk(s.yarns[i], s.word);
  }

  // A reader on its way in reads the word afresh.
  lemma LooksAgain(s0: State, s: State, i: nat) returns (s': State)
    requires Open(s0, s) && i < |s.yarns| && InRead(s.yarns[i].pc) && !WriteLocked(s.word) && !WriteWaiting(s.word)
    ensures Open(s0, s') && s'.word == s.word && TotalReads(s') == TotalReads(s)
    ensures s'.yarns == s.yarns[i := s.yarns[i].(pc := ReadCas(s.word))]
  {
    var y := s.yarns[i];
    var t := s;
    if y.pc.ReadCas? && y.pc.seen != s.word {
      t := Goes(s0, t, i, t.word, t.writer, y.(pc := ReadYield));
    }
    if t.yarns[i].pc.ReadYield? {
      t := Goes(s0, t, i, t.word, t.writer, y.(pc := ReadLoad));
    }
    if t.yarns[i].pc.ReadLoad? {
      t := Goes(s0, t, i, t.word, t.writer, y.(pc := ReadCas(t.word)));
    }
    s' := t;
  }

  // It comes out, and gives back all its read locks.
  lemma ComesOut(s0: State, s: State, i: nat) returns (s': State)
    requires Open(s0, s) && i < |s.yarns| && InRead(s.yarns[i].pc) && !s.yarns[i].writing
    requires !WriteWaiting(s.word) && TotalReads(s) + 1 < BIT30
    ensures Open(s0, s') && s'.yarns == s.yarns[i := Yarn(Idle, 0, false)]
    ensures WriteWaiting(s'.word) == WriteWaiting(s.word) && TotalReads(s') == TotalReads(s) - s.yarns[i].holds
  {
    NobodyWrites(s, i);
    var t := LooksAgain(s0, s, i);
    ReaderWaiting(t.word, t.word + 1);
    t := Goes(s0, t, i, t.word + 1, t.writer, Yarn(Idle, s.yarns[i].holds + 1, false));
    s' := LetsGo(s0, t, i);
  }

  ghost predicate NoneBlocked(s: State) {
    forall i :: 0 <= i < |s.yarns| ==> !Blocked(s.yarns[i], s.word)
  }

  lemma Quiets(s0: State, s: State, i: nat) returns (s': State)
    requires Open(s0, s) && i < |s.yarns| && s.yarns[i].holds > 0 && !Blocked(s.yarns[i], s.word)
    requires TotalReads(s) + 1 < BIT30
    ensures Open(s0, s') && s'.yarns == s.yarns[i := Yarn(Idle, 0, false)]
    ensures WriteWaiting(s'.word) == WriteWaiting(s.word) && TotalReads(s') <= TotalReads(s)
  {
    NobodyWrites(s, i);
    HasReader(s, i);
    if InRead(s.yarns[i].pc) {
      s' := ComesOut(s0, s, i);
    } else {
      var t := s;
      if s.yarns[i].pc.LastYield? {
        t := Goes(s0, s, i, s.word, s.writer, s.yarns[i].(pc := Idle));
      }
      s' := LetsGo(s0, t, i);
    }
  }

  // The yarns below n hold nothing.
  lemma {:induction false} AllQuiet(s0: State, s: State, n: nat) returns (s': State)
    requires Open(s0, s) && n <= |s.yarns| && NoneBlocked(s) && TotalReads(s) + 1 < BIT30
    ensures Open(s0, s') && |s'.yarns| == |s.yarns| && NoneBlocked(s') && TotalReads(s') + 1 < BIT30
    ensures WriteWaiting(s'.word) == WriteWaiting(s.word)
    ensures forall i :: 0 <= i < n ==> s'.yarns[i].holds == 0
    ensures forall i :: 0 <= i < |s.yarns| && Wanting(s.yarns[i].pc) ==> s'.yarns[i] == s.yarns[i]
  {
    if n == 0 {
      s' := s;
    } else {
      var t := AllQuiet(s0, s, n - 1);
      if t.yarns[n - 1].holds == 0 {
        s' := t;
      } else {
        s' := Quiets(s0, t, n - 1);
      }
    }
  }

  lemma NoReads(s: State)
    requires Sound(s) && s.grants == 0 && forall i :: 0 <= i < |s.yarns| ==> s.yarns[i].holds == 0
    ensures TotalReads(s) == 0 && s.word == if WriteWaiting(s.word) then BIT31 else 0
  {
    SumConstant(Holds(s.yarns), 0);
    Bits(s.word);
  }

  // ---- the grant ----

  ghost predicate Granted(s0: State, s: State) { Leads(s0, s) && s.grants == 1 }

  // A yarn that has asked gets in once nobody reads.
  lemma GetsIn(s0: State, s: State, i: nat) returns (s': State)
    requires Open(s0, s) && i < |s.yarns| && Wanting(s.yarns[i].pc)
    requires forall j :: 0 <= j < |s.yarns| ==> s.yarns[j].holds == 0
    ensures Granted(s0, s')
  {
    NobodyWrites(s, i);
    assert YarnOk(s.yarns[i], s.word);
    NoReads(s);
    var y := s.yarns[i];
    var t := s;
    if y.pc.SetWriter? {
      t := Goes(s0, t, i, t.word, i + 1, y.(pc := Spin));
    }
    if t.yarns[i].pc.Spin? {
      t := Goes(s0, t, i, t.word, t.writer, y.(pc := WriteCas));
    }
    s' := t.(word := BIT30, grants := 1, yarns := t.yarns[i := Yarn(Idle, 0, true)]);
    assert s'.yarns[i] == Yarn(Idle, 0, true) && Step(t, i, s');
    HoldsMove(t, i, s');
    LeadsStep(s0, t, i, s');
  }

  // A yarn that does not read asks.
  lemma Asks(s0: State, s: State, i: nat) returns (s': State)
    requires Open(s0, s) && i < |s.yarns| && s.word == 0
    requires forall j :: 0 <= j < |s.yarns| ==> s.yarns[j].holds == 0
    ensures Open(s0, s') && |s'.yarns| == |s.yarns| && Wanting(s'.yarns[i].pc)
    ensures forall j :: 0 <= j < |s'.yarns| ==> s'.yarns[j].holds == 0
  {
    NobodyWrites(s, i);
    assert YarnOk(s.yarns[i], s.word);
    NoReads(s);
    var t := s;
    if InRead(t.yarns[i].pc) {
      t := ComesOut(s0, t, i);
      NoReads(t);
    }
    if t.yarns[i].pc.LastYield? {
      t := Goes(s0, t, i, t.word, t.writer, Yarn(Idle, 0, false));
    }
    if t.yarns[i].pc.Idle? {
      t := Goes(s0, t, i, t.word, t.writer, Yarn(WriteLoad, 0, false));
    }
    s' := AsksOn(s0, t, i);
  }

  lemma AsksOn(s0: State, s: State, i: nat) returns (s': State)
    requires Open(s0, s) && i < |s.yarns| && s.word == 0 && TotalReads(s) == 0 && !s.yarns[i].writing
    requires s.yarns[i].pc.WriteLoad? || s.yarns[i].pc.WriteOr? || s.yarns[i].pc.WriteYield?
    requires forall j :: 0 <= j < |s.yarns| ==> s.yarns[j].holds == 0
    ensures Open(s0, s') && |s'.yarns| == |s.yarns| && Wanting(s'.yarns[i].pc)
    ensures forall j :: 0 <= j < |s'.yarns| ==> s'.yarns[j].holds == 0
  {
    var t := s;
    if t.yarns[i].pc.WriteOr? && t.yarns[i].pc.seen != 0 {
      t := Goes(s0, t, i, 0, t.writer, Yarn(WriteYield, 0, false));
    }
    if t.yarns[i].pc.WriteYield? {
      t := Goes(s0, t, i, 0, t.writer, Yarn(WriteLoad, 0, false));
    }
    if t.yarns[i].pc.WriteLoad? {
      t := Goes(s0, t, i, 0, t.writer, Yarn(WriteOr(0), 0, false));
    }
    s' := Goes(s0, t, i, OrWaiting(0), t.writer, Yarn(SetWriter, 0, false));
  }

  // While nobody is blocked, some run from here grants the write lock.
  lemma CanBeGranted(s: State) returns (s': State)
    requires Sound(s) && s.grants == 0 && |s.yarns| > 0 && NoneBlocked(s) && TotalReads(s) + 1 < BIT30
    ensures Granted(s, s')
  {
    LeadsNow(s);
    NobodyWrites(s, 0);
    var t := AllQuiet(s, s, |s.yarns|);
    NoReads(t);
    if WriteWaiting(s.word) {
      var i :| 0 <= i < |s.yarns| && Wanting(s.yarns[i].pc);
      s' := GetsIn(s, t, i);
    } else {
      t := Asks(s, t, 0);
      s' := GetsIn(s, t, 0);
    }
  }

  // ---- and only then ----

  lemma {:induction false} NeverGranted(ss: seq<State>, who: seq<nat>, s: State, n: nat, b: nat)
    requires Inv(s) && s.grants == 0 && n < |ss| && b < |s.yarns| && Blocked(s.yarns[b], s.word)
    requires Follows(ss, who, s, ss[|ss| - 1])
    ensures Inv(ss[n]) && ss[n].grants == 0 && b < |ss[n].yarns| && Blocked(ss[n].yarns[b], ss[n].word)
  {
    if n > 0 {
      NeverGranted(ss, who, s, n - 1, b);
      assert Step(ss[n - 1], who[n - 1], ss[n - 1 + 1]);
      StepInv(ss[n - 1], who[n - 1], ss[n]);
      BlockedStays(ss[n - 1], who[n - 1], ss[n], b);
    }
  }

  lemma NoPath(s: State, s': State)
    requires Sound(s) && s.grants == 0 && !NoneBlocked(s) && Path(s, s')
    ensures s'.grants == 0
  {
    var ss, who :| Follows(ss, who, s, s');
    var b :| 0 <= b < |s.yarns| && Blocked(s.yarns[b], s.word);
    NeverGranted(ss, who, s, |ss| - 1, b);
  }

  /** Before the write lock has been granted, and short of 2^30 read locks, some
      continuation grants it if and only if no yarn holding a read lock is waiting for the
      write lock, or for another read lock while a writer waits. */
  lemma GrantReachableIff(s: State)
    requires Sound(s) && s.grants == 0 && |s.yarns| > 0 && TotalReads(s) + 1 < BIT30
    ensures (exists s' :: Path(s, s') && s'.grants == 1) <==> NoneBlocked(s)
  {
    if NoneBlocked(s) {
      var s' := CanBeGranted(s);
      assert Path(s, s');
    } else {
      forall s' | Path(s, s') ensures s'.grants == 0 {
        NoPath(s, s');
      }
    }
  }

  // ---- a writer gives the lock back ----

  // One step of yarn i that changes no yarn's read locks.
  lemma Moving(s0: State, s: State, i: nat, word: nat, writer: nat, y: Yarn) returns (s': State)
    requires Leads(s0, s) && Inv(s) && TotalReads(s) < BIT30 && i < |s.yarns|
    requires Moves(s, i, Put(s, i, word, writer, y)) && y.holds == s.yarns[i].holds
    ensures s' == Put(s, i, word, writer, y) && Leads(s0, s') && Inv(s') && TotalReads(s') < BIT30
  {
    s' := Put(s, i, word, writer, y);
    assert s'.yarns[i] == y && s'.yarns == s.yarns[i := s'.yarns[i]];
    assert Step(s, i, s');
    HoldsMove(s, i, s');
    StepInv(s, i, s');
    LeadsStep(s0, s, i, s');
  }

  predicate Freeing(pc: Pc) { pc.FreeLoad? || pc.FreeLoadAgain? || pc.FreeCas? || pc.FreeYield? }

  // What every part of the unlock starts from.
  ghost predicate Holder(s0: State, s: State, i: nat) {
    Leads(s0, s) && Inv(s) && TotalReads(s) < BIT30 && i < |s.yarns| && s.yarns[i].writing
  }

  // From its start, or after a failed swap, up to a swap that will succeed.
  lemma Reloads(s0: State, s: State, i: nat) returns (s': State)
    requires Holder(s0, s, i)
    requires var pc := s.yarns[i].pc; pc.Idle? || pc.FreeYield? || pc.FreeLoad?
    ensures Holder(s0, s', i) && s'.word == s.word && s'.grants == s.grants
    ensures s'.yarns == s.yarns[i := Yarn(FreeCas(s.word, ClearWaiting(s.word)), s.yarns[i].holds, true)]
  {
    var k, t := s.yarns[i].holds, s;
    if !t.yarns[i].pc.FreeLoad? {
      t := Moving(s0, t, i, t.word, t.writer, Yarn(FreeLoad, k, true));
    }
    t := Moving(s0, t, i, t.word, t.writer, Yarn(FreeLoadAgain(t.word), k, true));
    s' := Moving(s0, t, i, t.word, t.writer, Yarn(FreeCas(t.word, ClearWaiting(t.word)), k, true));
  }

  // With what it has read it swaps, or fails and waits.
  lemma Rereads(s0: State, s: State, i: nat) returns (s': State)
    requires Holder(s0, s, i) && (s.yarns[i].pc.FreeLoadAgain? || s.yarns[i].pc.FreeCas?)
    ensures Holder(s0, s', i) && s'.word == s.word && s'.grants == s.grants
    ensures s'.yarns == s.yarns[i := Yarn(s'.yarns[i].pc, s.yarns[i].holds, true)]
    ensures var pc := s'.yarns[i].pc; pc.FreeYield? || (pc.FreeCas? && pc.seen == s.word)
  {
    var k, t := s.yarns[i].holds, s;
    if t.yarns[i].pc.FreeLoadAgain? {
      t := Moving(s0, t, i, t.word, t.writer, Yarn(FreeCas(t.yarns[i].pc.seen, ClearWaiting(t.word)), k, true));
    }
    if t.yarns[i].pc.seen != t.word {
      t := Moving(s0, t, i, t.word, t.writer, Yarn(FreeYield, k, true));
    }
    s' := t;
  }

  /** Whoever has the write lock can always give it back, by its own steps alone, wherever in
      the unlock it is and however stale what it read. */
  lemma WriterComesOut(s: State, i: nat) returns (s': State)
    requires Inv(s) && TotalReads(s) < BIT30 && i < |s.yarns| && s.yarns[i].writing
    requires s.yarns[i].pc.Idle? || Freeing(s.yarns[i].pc)
    ensures Path(s, s') && s'.yarns == s.yarns[i := Yarn(Idle, s.yarns[i].holds, false)]
    ensures s'.grants == s.grants && s'.word == BIT30
  {
    LeadsNow(s);
    var t := s;
    if t.yarns[i].pc.FreeLoadAgain? || t.yarns[i].pc.FreeCas? {
      t := Rereads(s, t, i);
    }
    if !t.yarns[i].pc.FreeCas? {
      t := Reloads(s, t, i);
    }
    s' := Clears(s, t, i);
    assert Path(s, s');
  }

  lemma Clears(s0: State, s: State, i: nat) returns (s': State)
    requires Holder(s0, s, i) && s.yarns[i].pc.FreeCas? && s.yarns[i].pc.seen == s.word
    ensures Leads(s0, s') && s'.yarns == s.yarns[i := Yarn(Idle, s.yarns[i].holds, false)]
    ensures s'.grants == s.grants && s'.word == BIT30
  {
    var k := s.yarns[i].holds;
    assert YarnOk(s.yarns[i], s.word);
    var t := Moving(s0, s, i, BIT30, s.writer, Yarn(ClearWriter, k, false));
    if t.writer == i + 1 {
      s' := Moving(s0, t, i, t.word, 0, Yarn(Idle, k, false));
    } else {
      t := Moving(s0, t, i, t.word, t.writer, Yarn(LastYield, k, false));
      s' := Moving(s0, t, i, t.word, t.writer, Yarn(Idle, k, false));
    }
  }

  /** From a new lock of two yarns: one reads, the other asks to write, and the first asks
      to read again. From there on no write lock is ever granted. */
  lemma ReadsAgainBlocks() returns (s0: State, s: State)
    ensures Init(s0) && Path(s0, s) && s.grants == 0 && s.yarns == [Yarn(ReadLoad, 1, false), Yarn(SetWriter, 0, false)]
    ensures forall s' :: Path(s, s') ==> s'.grants == 0
  {
    s0 := State(0, 0, [Yarn(Idle, 0, false), Yarn(Idle, 0, false)], 0);
    InitInv(s0);
    assert Holds(s0.yarns) == [0, 0] && Sum([0, 0]) == 0;
    LeadsNow(s0);
    s := Goes(s0, s0, 0, 0, 0, Yarn(ReadLoad, 0, false));
    s := Goes(s0, s, 0, 0, 0, Yarn(ReadCas(0), 0, false));
    s := Goes(s0, s, 0, 1, 0, Yarn(Idle, 1, false));
    s := Goes(s0, s, 1, 1, 0, Yarn(WriteLoad, 0, false));
    s := Goes(s0, s, 1, 1, 0, Yarn(WriteOr(1), 0, false));
    s := Goes(s0, s, 1, OrWaiting(1), 0, Yarn(SetWriter, 0, false));
    s := Goes(s0, s, 0, s.word, 0, Yarn(ReadLoad, 1, false));
    assert Blocked(s.yarns[0], s.word) && Path(s0, s);
    forall s' | Path(s, s') ensures s'.grants == 0 {
      NoPath(s, s');
    }
  }

  /** The invariant that this needs holds at every moment of every run of the lock until
      the first grant. */
  lemma {:induction false} RunSound(ss: seq<State>, who: seq<nat>, n: nat)
    requires IsRun(ss, who) && n < |ss| && ss[n].grants == 0
    ensures Sound(ss[n])
  {
    RunInv(ss, who, n);
    if n > 0 {
      RunInv(ss, who, n - 1);
      assert Step(ss[n - 1], who[n - 1], ss[n - 1 + 1]);
      WordMove(ss[n - 1], who[n - 1], ss[n]);
      RunSound(ss, who, n - 1);
      AskedStep(ss[n - 1], who[n - 1], ss[n]);
    }
  }
}
