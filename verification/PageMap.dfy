/** The pages the program has from the operating system, and whether both allocators stay
    inside them. One build gives back as many bytes as it is told, the other the whole block
    whatever it is told. */
module PageMap {
  import opened BigBook
  import opened LittleAllocator

  // mapped: the pages the program has; sized: the build that uses the length it is told.
  datatype Space = Space(m: Memory, mapped: set<nat>, sized: bool)

  function Empty(sized: bool): Space { Space(Unused(), {}, sized) }

  // The pages of a block.
  ghost function Pages(at: nat, len: nat): set<nat> {
    set a: nat | at <= a < at + len && a % PAGE == 0
  }

  // A page call answers pages nobody has; an empty answer is nobody's address.
  ghost predicate Answer(s: Space, at: nat, len: nat) {
    && Pages(at, len) !! s.mapped
    && (at in s.m.large ==> len > 0 && s.m.large[at] > 0)
  }

  ghost predicate Can(s: Space, c: Call) {
    && CanCall(s.m, c)
    && match c
       case Small(e) => e.Allocate? ==> e.base !in s.mapped
       case Take(len, at, base) =>
         Answer(s, at, Rounded(len)) && base !in s.mapped + Pages(at, Rounded(len))
       case Give(_) => true
  }

  // The small side asks for a page.
  ghost function Asked(h: Heap, len: nat, base: nat): set<nat>
    requires HasActive(h)
  {
    if h.active == 0 || h.pages[h.active].nextbase == 0 || h.pages[h.active].remainingLen < len then {base} else {}
  }

  // It gives one back.
  ghost function Dropped(h: Heap, h': Heap): set<nat> { h.pages.Keys - h'.pages.Keys }

  ghost function GivenLen(s: Space, ptr: nat): nat
    requires CanCall(s.m, Give(ptr))
  {
    if s.sized then LengthOf(s.m.book[Slot(ptr)], ptr) else s.m.large[ptr]
  }

  ghost function SmallMapped(mapped: set<nat>, w: World, e: Event): set<nat>
    requires SmallCan(w, e)
  {
    match e
    case Allocate(len, base) => mapped + Asked(w.h, len, base)
    case Write(_, _) => mapped
    case Release(ptr) => mapped - Dropped(w.h, Free(w.h, ptr))
  }

  ghost function Mapped(s: Space, c: Call): set<nat>
    requires Can(s, c)
  {
    match c
    case Small(e) => SmallMapped(s.mapped, s.m.w, e)
    case Take(len, at, base) =>
      s.mapped + Pages(at, Rounded(len)) + (if Chained(s.m.book, at) then Asked(s.m.w.h, ENTRY, base) else {})
    case Give(ptr) =>
      s.mapped - Dropped(s.m.w.h, GiveStep(s.m, ptr).w.h) - Pages(ptr, GivenLen(s, ptr))
  }

  ghost function SpaceStep(s: Space, c: Call): Space
    requires Can(s, c)
  {
    Space(CallStep(s.m, c), Mapped(s, c), s.sized)
  }

  // Small pages and large blocks lie in pages the program has, each in its own.
  ghost predicate Placed(m: Memory, mapped: set<nat>) {
    && m.w.h.pages.Keys <= mapped
    && (forall p :: p in m.large ==> LargeOk(m, mapped, p))
    && (forall p, q :: p in m.large && q in m.large && p != q ==> Pages(p, m.large[p]) !! Pages(q, m.large[q]))
  }

  ghost predicate LargeOk(m: Memory, mapped: set<nat>, p: nat)
    requires p in m.large
  {
    IsPage(p) && Pages(p, m.large[p]) <= mapped && Pages(p, m.large[p]) !! m.w.h.pages.Keys
  }

  ghost predicate SpaceInv(s: Space) { MemoryInv(s.m) && Placed(s.m, s.mapped) }

  // Nothing is given back past the end of its block.
  ghost predicate Tight(s: Space, c: Call)
    requires Can(s, c)
  {
    c.Give? ==> GivenLen(s, c.ptr) <= s.m.large[c.ptr]
  }

  // ---- each kind of call ----

  lemma FirstPage(at: nat, len: nat)
    requires IsPage(at)
    ensures len > 0 ==> at in Pages(at, len)
  {
  }

  lemma Answered(s: Space, c: Call)
    requires SpaceInv(s) && Can(s, c)
    ensures AnsweredFresh(s.m, c)
  {
    if c.Take? {
      assert c.at in s.m.large ==> LargeOk(s.m, s.mapped, c.at);
      FirstPage(c.at, if c.at in s.m.large then s.m.large[c.at] else 0);
      FirstPage(c.at, Rounded(c.len));
    }
  }

  lemma AllocPages(h: Heap, len: nat, base: nat)
    requires HasActive(h) && IsPage(base) && len <= PAGE - HEADER
    ensures Alloc(h, len, base).0.pages.Keys == h.pages.Keys + Asked(h, len, base)
  {
  }

  lemma FreePages(h: Heap, ptr: nat)
    requires CanFree(h, ptr) && |h.pages[PageOf(ptr)].bytes| == PAGE
    ensures Free(h, ptr).pages.Keys <= h.pages.Keys
  {
  }

  // The small side may gain a page nobody had, or drop some.
  lemma PlacedSmall(m: Memory, mapped: set<nat>, m': Memory, mapped': set<nat>, gained: set<nat>)
    requires Placed(m, mapped) && m'.large == m.large
    requires m'.w.h.pages.Keys <= m.w.h.pages.Keys + gained && gained !! mapped
    requires mapped' == mapped + gained - (m.w.h.pages.Keys - m'.w.h.pages.Keys)
    ensures Placed(m', mapped')
  {
    forall p | p in m'.large ensures LargeOk(m', mapped', p) {
      assert LargeOk(m, mapped, p);
    }
  }

  lemma PlacedTake(m: Memory, mapped: set<nat>, m': Memory, mapped': set<nat>, at: nat, len: nat, gained: set<nat>)
    requires Placed(m, mapped) && m'.large == m.large[at := len] && at !in m.large && IsPage(at)
    requires m'.w.h.pages.Keys == m.w.h.pages.Keys + gained
    requires Pages(at, len) !! mapped && gained !! mapped + Pages(at, len)
    requires mapped' == mapped + Pages(at, len) + gained
    ensures Placed(m', mapped')
  {
    forall p | p in m'.large ensures LargeOk(m', mapped', p) {
      assert p != at ==> LargeOk(m, mapped, p);
    }
    forall p, q | p in m'.large && q in m'.large && p != q
      ensures Pages(p, m'.large[p]) !! Pages(q, m'.large[q])
    {
      assert p != at ==> LargeOk(m, mapped, p);
      assert q != at ==> LargeOk(m, mapped, q);
    }
  }

  lemma PlacedGive(m: Memory, mapped: set<nat>, m': Memory, mapped': set<nat>, ptr: nat, len: nat)
    requires Placed(m, mapped) && ptr in m.large && m'.large == m.large - {ptr}
    requires m'.w.h.pages.Keys <= m.w.h.pages.Keys
    requires mapped' == mapped - (m.w.h.pages.Keys - m'.w.h.pages.Keys) - Pages(ptr, len)
    ensures Placed(m', mapped') <==>
              && Pages(ptr, len) !! m'.w.h.pages.Keys
              && forall p :: p in m'.large ==> Pages(ptr, len) !! Pages(p, m.large[p])
  {
    forall p | p in m'.large
      ensures LargeOk(m', mapped', p) <==> Pages(ptr, len) !! Pages(p, m.large[p])
    {
      assert LargeOk(m, mapped, p);
    }
  }

  lemma ShorterPages(at: nat, short: nat, long: nat)
    requires short <= long
    ensures Pages(at, short) <= Pages(at, long)
  {
  }

  lemma GivePages(m: Memory, ptr: nat)
    requires CanCall(m, Give(ptr))
    ensures GiveStep(m, ptr).w.h.pages.Keys <= m.w.h.pages.Keys && GiveStep(m, ptr).large == m.large - {ptr}
  {
    var b := m.book[Slot(ptr)];
    if b.lptr != ptr {
      FreePages(m.w.h, NodeOf(b, ptr));
    }
  }

  /** A give-back keeps both sides in their own pages if and only if none of the pages it
      gives back is a small page still in use or another live block's. */
  lemma GiveKeepsIff(s: Space, ptr: nat)
    requires SpaceInv(s) && Can(s, Give(ptr))
    ensures var m' := SpaceStep(s, Give(ptr)).m;
            SpaceInv(SpaceStep(s, Give(ptr))) <==>
              && Pages(ptr, GivenLen(s, ptr)) !! m'.w.h.pages.Keys
              && forall p :: p in m'.large ==> Pages(ptr, GivenLen(s, ptr)) !! Pages(p, s.m.large[p])
  {
    CallKeeps(s.m, Give(ptr));
    GivePages(s.m, ptr);
    var s' := SpaceStep(s, Give(ptr));
    PlacedGive(s.m, s.mapped, s'.m, s'.mapped, ptr, GivenLen(s, ptr));
  }

  lemma GiveKeeps(s: Space, ptr: nat)
    requires SpaceInv(s) && Can(s, Give(ptr)) && Tight(s, Give(ptr))
    ensures SpaceInv(SpaceStep(s, Give(ptr)))
  {
    GiveKeepsIff(s, ptr);
    GivePages(s.m, ptr);
    ShorterPages(ptr, GivenLen(s, ptr), s.m.large[ptr]);
    assert LargeOk(s.m, s.mapped, ptr);
  }

  lemma SmallPages(s: Space, e: Event)
    requires Can(s, Small(e))
    ensures var h, h' := s.m.w.h, SmallStep(s.m.w, e).h;
            var gained := if e.Allocate? then Asked(h, e.len, e.base) else {};
            && h'.pages.Keys <= h.pages.Keys + gained && gained !! s.mapped
            && SmallMapped(s.mapped, s.m.w, e) == s.mapped + gained - (h.pages.Keys - h'.pages.Keys)
  {
    if e.Allocate? {
      AllocPages(s.m.w.h, e.len, e.base);
    } else if e.Release? {
      FreePages(s.m.w.h, e.ptr);
    }
  }

  lemma SmallKeepsPlaces(s: Space, e: Event)
    requires SpaceInv(s) && Can(s, Small(e))
    ensures SpaceInv(SpaceStep(s, Small(e)))
  {
    Answered(s, Small(e));
    CallKeeps(s.m, Small(e));
    SmallPages(s, e);
    var s' := SpaceStep(s, Small(e));
    var gained := if e.Allocate? then Asked(s.m.w.h, e.len, e.base) else {};
    PlacedSmall(s.m, s.mapped, s'.m, s'.mapped, gained);
  }

  lemma TakeKeepsPlaces(s: Space, len: nat, at: nat, base: nat)
    requires SpaceInv(s) && Can(s, Take(len, at, base))
    ensures SpaceInv(SpaceStep(s, Take(len, at, base)))
  {
    var c := Take(len, at, base);
    Answered(s, c);
    CallKeeps(s.m, c);
    var s' := SpaceStep(s, c);
    AllocPages(s.m.w.h, ENTRY, base);
    var gained := if Chained(s.m.book, at) then Asked(s.m.w.h, ENTRY, base) else {};
    PlacedTake(s.m, s.mapped, s'.m, s'.mapped, at, Rounded(len), gained);
  }

  /** Every call that gives nothing back past its block keeps the invariant. */
  lemma StepKeeps(s: Space, c: Call)
    requires SpaceInv(s) && Can(s, c) && Tight(s, c)
    ensures SpaceInv(SpaceStep(s, c))
  {
    match c
    case Small(e) => SmallKeepsPlaces(s, e);
    case Take(len, at, base) => TakeKeepsPlaces(s, len, at, base);
    case Give(ptr) => GiveKeeps(s, ptr);
  }

  // ---- runs ----

  ghost predicate Legal(s: Space, cs: seq<Call>)
    decreases |cs|
  {
    cs == [] || (Can(s, cs[0]) && Legal(SpaceStep(s, cs[0]), cs[1..]))
  }

  ghost function Run(s: Space, cs: seq<Call>): Space
    requires Legal(s, cs)
    decreases |cs|
  {
    if cs == [] then s else Run(SpaceStep(s, cs[0]), cs[1..])
  }

  ghost predicate TightRun(s: Space, cs: seq<Call>)
    requires Legal(s, cs)
    decreases |cs|
  {
    cs == [] || (Tight(s, cs[0]) && TightRun(SpaceStep(s, cs[0]), cs[1..]))
  }

  // The build that ignores the length gives nothing back past its block.
  lemma {:induction false} UnsizedIsTight(s: Space, cs: seq<Call>)
    requires Legal(s, cs) && !s.sized
    ensures TightRun(s, cs)
    decreases |cs|
  {
    if cs != [] {
      UnsizedIsTight(SpaceStep(s, cs[0]), cs[1..]);
    }
  }

  lemma {:induction false} RunKeeps(s: Space, cs: seq<Call>)
    requires SpaceInv(s) && Legal(s, cs) && TightRun(s, cs)
    ensures SpaceInv(Run(s, cs)) && Run(s, cs).sized == s.sized
    decreases |cs|
  {
    if cs != [] {
      StepKeeps(s, cs[0]);
      RunKeeps(SpaceStep(s, cs[0]), cs[1..]);
    }
  }

  lemma {:induction false} RunIsCalls(s: Space, cs: seq<Call>)
    requires Legal(s, cs)
    ensures LegalCalls(s.m, cs) && RunCalls(s.m, cs) == Run(s, cs).m
    decreases |cs|
  {
    if cs != [] {
      RunIsCalls(SpaceStep(s, cs[0]), cs[1..]);
    }
  }

  lemma OneCall(s: Space, c: Call, cs: seq<Call>)
    requires Can(s, c) && Legal(SpaceStep(s, c), cs)
    ensures Legal(s, [c] + cs) && Run(s, [c] + cs) == Run(SpaceStep(s, c), cs)
    ensures TightRun(s, [c] + cs) <==> Tight(s, c) && TightRun(SpaceStep(s, c), cs)
  {
    assert ([c] + cs)[1..] == cs;
  }

  // A small block and a large one, or two large ones, share no byte.
  ghost predicate BytesApart(a: nat, len: nat, b: nat, len': nat) { a + len <= b || b + len' <= a }

  lemma SmallFromLarge(s: Space, a: nat, p: nat)
    requires SpaceInv(s) && a in s.m.w.live && p in s.m.large
    ensures FreesLittle(a) && BytesApart(a, s.m.w.live[a], p, s.m.large[p])
  {
    assert BlockOk(s.m.w, a) && PageOk(s.m.w, PageOf(a)) && LargeOk(s.m, s.mapped, p);
    if PageOf(a) < p {
      PagesApart(PageOf(a), p);
    } else {
      assert PageOf(a) !in Pages(p, s.m.large[p]);
    }
  }

  lemma LargeFromLarge(s: Space, p: nat, q: nat)
    requires SpaceInv(s) && p in s.m.large && q in s.m.large && p < q
    ensures BytesApart(p, s.m.large[p], q, s.m.large[q]) || s.m.large[q] == 0
  {
    assert LargeOk(s.m, s.mapped, p) && LargeOk(s.m, s.mapped, q);
    if s.m.large[q] > 0 {
      assert q in Pages(q, s.m.large[q]) && q !in Pages(p, s.m.large[p]);
    }
  }

  /** After any run of small and large calls that gives nothing back past its block, which
      in the build that ignores the length is every run: all blocks lie apart, small ones,
      the client's and the book's own, and large ones; everything lies in pages the program
      has; small blocks go back to the small side, and every live large block can be given
      back, so the search never runs off its chain. */
  lemma BothSidesSafe(sized: bool, cs: seq<Call>)
    requires Legal(Empty(sized), cs) && TightRun(Empty(sized), cs)
    ensures var s := Run(Empty(sized), cs); var live, large := s.m.w.live, s.m.large;
            && (forall a, b :: a in live && b in live && a != b ==> Apart(live, a, b))
            && (forall a, p :: a in live && p in large ==> BytesApart(a, live[a], p, large[p]))
            && (forall p, q :: p in large && q in large && p < q ==>
                  BytesApart(p, large[p], q, large[q]) || large[q] == 0)
            && (forall a :: a in live ==> FreesLittle(a) && PageOf(a) in s.mapped)
            && (forall p :: p in large ==> !FreesLittle(p) && Pages(p, large[p]) <= s.mapped && CanCall(s.m, Give(p)))
  {
    EmptyInv(sized);
    RunKeeps(Empty(sized), cs);
    var s := Run(Empty(sized), cs);
    forall a | a in s.m.w.live ensures FreesLittle(a) && PageOf(a) in s.mapped {
      assert BlockOk(s.m.w, a) && PageOk(s.m.w, PageOf(a));
    }
    forall a, p | a in s.m.w.live && p in s.m.large ensures BytesApart(a, s.m.w.live[a], p, s.m.large[p]) {
      SmallFromLarge(s, a, p);
    }
    forall p, q | p in s.m.large && q in s.m.large && p < q
      ensures BytesApart(p, s.m.large[p], q, s.m.large[q]) || s.m.large[q] == 0
    {
      LargeFromLarge(s, p, q);
    }
    forall p | p in s.m.large
      ensures !FreesLittle(p) && Pages(p, s.m.large[p]) <= s.mapped && CanCall(s.m, Give(p))
    {
      assert LargeOk(s.m, s.mapped, p);
      LargeCanBeGiven(s.m, p);
    }
  }

  /** Every byte a client asked for is its own: after any such run, a large block shorter
      than the word less a page lies with all its bytes in pages the program has, and none of
      them is in another block, large or small. Longer requests get nothing at all. */
  lemma EveryByteOwn(sized: bool, cs: seq<Call>, p: nat, a: nat)
    requires Legal(Empty(sized), cs) && TightRun(Empty(sized), cs) && p in Run(Empty(sized), cs).m.asked
    ensures var m := Run(Empty(sized), cs).m;
            p in m.large && m.large[p] % PAGE == 0 && (m.asked[p] > WORD - PAGE <==> m.large[p] < m.asked[p])
            && (m.asked[p] <= WORD - PAGE ==> m.large[p] < m.asked[p] + PAGE)
            && (m.asked[p] > WORD - PAGE ==> m.large[p] == 0)
    ensures var s := Run(Empty(sized), cs);
            s.m.asked[p] <= WORD - PAGE && p <= a < p + s.m.asked[p] ==>
              && PageOf(a) in s.mapped
              && (forall q :: q in s.m.large && q != p ==> !(q <= a < q + s.m.large[q]))
              && (forall b :: b in s.m.w.live ==> !(b <= a < b + s.m.w.live[b]))
  {
    EmptyInv(sized);
    RunKeeps(Empty(sized), cs);
    RunIsCalls(Empty(sized), cs);
    RunHonest(Unused(), cs);
    var s := Run(Empty(sized), cs);
    RoundedUp(s.m.asked[p]);
    if s.m.asked[p] <= WORD - PAGE && p <= a < p + s.m.asked[p] {
      LargeByte(s, p, a);
    }
  }

  lemma LargeByte(s: Space, p: nat, a: nat)
    requires SpaceInv(s) && p in s.m.large && p <= a < p + s.m.large[p]
    ensures PageOf(a) in s.mapped
    ensures forall q :: q in s.m.large && q != p ==> !(q <= a < q + s.m.large[q])
    ensures forall b :: b in s.m.w.live ==> !(b <= a < b + s.m.w.live[b])
  {
    assert LargeOk(s.m, s.mapped, p);
    PageWithin(p, a);
    assert PageOf(a) in Pages(p, s.m.large[p]);
    forall q | q in s.m.large && q != p ensures !(q <= a < q + s.m.large[q]) {
      assert LargeOk(s.m, s.mapped, q);
      if q <= a {
        PageWithin(q, a);
        assert PageOf(a) !in Pages(q, s.m.large[q]);
      }
    }
    forall b | b in s.m.w.live ensures !(b <= a < b + s.m.w.live[b]) {
      SmallFromLarge(s, b, p);
    }
  }

  lemma PageWithin(p: nat, a: nat)
    requires p % PAGE == 0 && p <= a
    ensures p <= PageOf(a) <= a && PageOf(a) % PAGE == 0
  {
  }

  lemma EmptyInv(sized: bool)
    ensures SpaceInv(Empty(sized))
  {
    UnusedInv();
  }

  // ---- the length a large block is given back with ----

  /** The length on record for a live block is its own, and the give-back that uses it ends
      where the block does, unless the very first large block of its slot was at the same
      address with another length; with a greater one it reaches past the block. */
  lemma GivenBackWhole(sized: bool, cs: seq<Call>, p: nat)
    requires Legal(Empty(sized), cs) && TightRun(Empty(sized), cs) && p in Run(Empty(sized), cs).m.large
    ensures var m, first := Run(Empty(sized), cs).m, FirstTaken(cs, Slot(p));
            && |m.book| == BUCKETS && Recorded(m.book[Slot(p)], p)
            && (LengthOf(m.book[Slot(p)], p) == m.large[p] <==> !(first.lptr == p && first.len != m.large[p]))
            && (LengthOf(m.book[Slot(p)], p) > m.large[p] <==> first.lptr == p && first.len > m.large[p])
  {
    EmptyInv(sized);
    RunKeeps(Empty(sized), cs);
    RunIsCalls(Empty(sized), cs);
    HeadForever(Unused(), cs, Slot(p));
    LengthIs(Run(Empty(sized), cs).m, p);
  }

  // ---- runs that give back a wrong length ----

  lemma TwoPagesOn(p: nat, a: nat)
    requires p % PAGE == 0 && a % PAGE == 0 && p <= a < p + 2 * PAGE
    ensures a == p || a == p + PAGE
  {
  }

  lemma PagesUpToTwo(p: nat)
    requires IsPage(p)
    ensures Pages(p, 4096) == {p} && Pages(p, 8192) == {p, p + PAGE}
  {
    forall a: nat | p <= a < p + 8192 && a % PAGE == 0 ensures a == p || a == p + PAGE {
      TwoPagesOn(p, a);
    }
  }

  // Nobody has anything; one block of that length was taken and given back.
  ghost function Used(p: nat, len: nat): Space {
    Space(Memory(World(NOTHING, map[]), Blank()[Slot(p) := Bucket(p, len, [])], map[], map[]), {}, true)
  }

  lemma TakenOnce(p: nat, q: nat, len: nat)
    requires IsPage(p) && IsPage(q) && q !in Pages(p, len) && LARGEST < len < WORD && Rounded(len) == len
    ensures Can(Empty(true), Take(len, p, q))
    ensures var s := SpaceStep(Empty(true), Take(len, p, q));
            && s.m == Memory(World(NOTHING, map[]), Used(p, len).m.book, map[p := len], map[p := len])
            && s.mapped == Pages(p, len) && s.sized
  {
  }

  lemma GivenOnce(s: Space, p: nat, len: nat)
    requires IsPage(p)
    requires s.m == Memory(World(NOTHING, map[]), Used(p, len).m.book, map[p := len], map[p := len])
    requires s.mapped == Pages(p, len) && s.sized
    ensures Can(s, Give(p)) && Tight(s, Give(p)) && SpaceStep(s, Give(p)) == Used(p, len)
  {
    assert s.m.book[Slot(p)] == Bucket(p, len, []);
    assert map[p := len] - {p} == map[];
  }

  // Taken, given back, and a second block taken at the same address.
  lemma TakenAgain(p: nat, q: nat, len: nat, len': nat, base: nat)
    requires IsPage(p) && IsPage(q) && q !in Pages(p, len)
    requires LARGEST < len < WORD && Rounded(len) == len
    requires Can(Used(p, len), Take(len', p, base))
    ensures var cs := [Take(len, p, q), Give(p), Take(len', p, base)];
            && Legal(Empty(true), cs) && TightRun(Empty(true), cs)
            && Run(Empty(true), cs) == SpaceStep(Used(p, len), Take(len', p, base))
  {
    TakenOnce(p, q, len);
    var s1 := SpaceStep(Empty(true), Take(len, p, q));
    GivenOnce(s1, p, len);
    OneCall(Used(p, len), Take(len', p, base), []);
    OneCall(s1, Give(p), [Take(len', p, base)]);
    OneCall(Empty(true), Take(len, p, q), [Give(p), Take(len', p, base)]);
  }

  /** One page for two: take one page, give it back, take two at the same address; the
      give-back would return one. */
  lemma OnePageForTwo(p: nat, q: nat)
    requires IsPage(p) && IsPage(q) && q != p && q != p + PAGE
    ensures var cs := [Take(4096, p, q), Give(p), Take(8192, p, q)];
            && Legal(Empty(true), cs) && TightRun(Empty(true), cs)
            && var s := Run(Empty(true), cs);
               CanCall(s.m, Give(p)) && s.m.large[p] == 8192 && GivenLen(s, p) == 4096
  {
    PagesUpToTwo(p);
    TakenAgain(p, q, 4096, 8192, q);
    assert Used(p, 4096).m.book[Slot(p)] == Bucket(p, 4096, []);
  }

  // The page after p comes to hold the book's entry.
  lemma EntryAfter(p: nat) returns (s: Space)
    requires IsPage(p)
    ensures Can(Used(p, 8192), Take(4096, p, p + PAGE)) && s == SpaceStep(Used(p, 8192), Take(4096, p, p + PAGE))
    ensures s.m.large == map[p := 4096] && s.m.w.live == map[p + PAGE + HEADER := ENTRY] && s.sized
    ensures s.m.w.h.pages.Keys == {p + PAGE} && |s.m.book| == BUCKETS
    ensures s.m.book[Slot(p)].lptr == p && s.m.book[Slot(p)].len == 8192
  {
    PagesUpToTwo(p);
    assert Used(p, 8192).m.book[Slot(p)] == Bucket(p, 8192, []);
    s := SpaceStep(Used(p, 8192), Take(4096, p, p + PAGE));
  }

  /** Two pages for one: take two pages, give them back, take one at the same address, while
      the page after it comes to hold the book's own entry; the give-back of the one returns
      both, and a live small block lies in a page the program no longer has. */
  lemma TwoPagesForOne(p: nat, q: nat)
    requires IsPage(p) && IsPage(q) && q != p && q != p + PAGE
    ensures var cs := [Take(8192, p, q), Give(p), Take(4096, p, p + PAGE)];
            && Legal(Empty(true), cs) && TightRun(Empty(true), cs)
            && var s := Run(Empty(true), cs);
               && Can(s, Give(p)) && s.m.large[p] == 4096 && GivenLen(s, p) == 8192
               && var s' := SpaceStep(s, Give(p));
                  && s'.m.w.live == map[p + PAGE + HEADER := ENTRY]
                  && p + PAGE in s'.m.w.h.pages && p + PAGE !in s'.mapped
  {
    PagesUpToTwo(p);
    var s := EntryAfter(p);
    TakenAgain(p, q, 8192, 4096, p + PAGE);
  }
}
