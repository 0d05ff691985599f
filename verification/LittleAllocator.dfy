/** The small-block allocator as a value: blocks cut one after another from 4096-byte
    pages, each page headed by its bookkeeping and given back when its last block is
    freed. Words are 32 bits, so a page header takes 12 bytes. */
module LittleAllocator {

  const PAGE: nat := 4096
  const HEADER: nat := 12
  const LARGEST: nat := 2048  // longer requests go to the page allocator

  // bytes: the whole page by offset; the header's own bytes are not used.
  datatype Page = Page(nalloc: nat, remainingLen: nat, nextbase: nat, bytes: seq<nat>)

  // pages: the owned pages by address; active: the page blocks are cut from, 0 is NULL.
  datatype Heap = Heap(pages: map<nat, Page>, active: nat)

  const NOTHING := Heap(map[], 0)

  function PageOf(addr: nat): nat { addr - addr % PAGE }

  lemma InPage(base: nat, addr: nat)
    requires base % PAGE == 0 && base <= addr < base + PAGE
    ensures PageOf(addr) == base && addr % PAGE == addr - base
  {
  }

  lemma PagesApart(a: nat, b: nat)
    requires a % PAGE == 0 && b % PAGE == 0 && a < b
    ensures a + PAGE <= b
  {
  }

  function EmptyPage(base: nat): Page {
    Page(0, PAGE - HEADER, base + HEADER, seq(PAGE, _ => 0))
  }

  predicate HasActive(h: Heap) { h.active == 0 || h.active in h.pages }

  // What the page allocator can answer.
  predicate FreshPage(h: Heap, base: nat) {
    base > 0 && base % PAGE == 0 && base !in h.pages
  }

  function PageAllocate(h: Heap, base: nat): Heap {
    Heap(h.pages[base := EmptyPage(base)], base)
  }

  function GetPage(h: Heap, base: nat): (h': Heap)
    requires HasActive(h) && base > 0
    ensures h'.active in h'.pages
  {
    if h.active == 0 || h.pages[h.active].nextbase == 0 then PageAllocate(h, base) else h
  }

  // The page the block is cut from; `base` answers the request for a new one.
  function PageFor(h: Heap, len: nat, base: nat): (h': Heap)
    requires HasActive(h) && base > 0 && len <= PAGE - HEADER
    ensures h'.active in h'.pages && len <= h'.pages[h'.active].remainingLen
  {
    var h1 := GetPage(h, base);
    if h1.pages[h1.active].remainingLen < len then PageAllocate(h1, base) else h1
  }

  // Cut `len` bytes off the active page.
  function Cut(h: Heap, len: nat): Heap
    requires h.active in h.pages && len <= h.pages[h.active].remainingLen
  {
    var lpi := h.pages[h.active];
    h.(pages := h.pages[h.active := lpi.(nalloc := lpi.nalloc + 1, remainingLen := lpi.remainingLen - len,
                                         nextbase := lpi.nextbase + len)])
  }

  function Alloc(h: Heap, len: nat, base: nat): (Heap, nat)
    requires HasActive(h) && base > 0 && len <= PAGE - HEADER
  {
    var h1 := PageFor(h, len, base);
    (Cut(h1, len), h1.pages[h1.active].nextbase)
  }

  predicate CanFree(h: Heap, ptr: nat) {
    PageOf(ptr) in h.pages && h.pages[PageOf(ptr)].nalloc > 0
  }

  function Wiped(bytes: seq<nat>): seq<nat>
    requires |bytes| == PAGE
  {
    bytes[..HEADER] + seq(PAGE - HEADER, _ => 0)
  }

  function Free(h: Heap, ptr: nat): Heap
    requires CanFree(h, ptr) && |h.pages[PageOf(ptr)].bytes| == PAGE
  {
    var base := PageOf(ptr);
    var lpi := h.pages[base];
    if lpi.nalloc > 1 then h.(pages := h.pages[base := lpi.(nalloc := lpi.nalloc - 1)])
    else if base == h.active then h.(pages := h.pages[base := Page(0, PAGE - HEADER, base + HEADER, Wiped(lpi.bytes))])
    else h.(pages := h.pages - {base})
  }

  function Poke(h: Heap, addr: nat, byte: nat): Heap
    requires PageOf(addr) in h.pages && |h.pages[PageOf(addr)].bytes| == PAGE
  {
    var lpi := h.pages[PageOf(addr)];
    h.(pages := h.pages[PageOf(addr) := lpi.(bytes := lpi.bytes[addr % PAGE := byte])])
  }

  // yalloc and yfree choose a side by length and by address.
  predicate GoesLittle(len: nat) { len <= LARGEST }
  predicate FreesLittle(ptr: nat) { ptr % PAGE != 0 }

  // ---- the allocator with its client ----

  // live: the blocks handed out and not yet freed, with their lengths.
  datatype World = World(h: Heap, live: map<nat, nat>)

  datatype Event =
    | Allocate(len: nat, base: nat)
    | Write(addr: nat, byte: nat)
    | Release(ptr: nat)

  ghost function LiveIn(live: map<nat, nat>, base: nat): set<nat> {
    set a | a in live && PageOf(a) == base
  }

  ghost predicate PageOk(w: World, base: nat)
    requires base in w.h.pages
  {
    var lpi := w.h.pages[base];
    && base > 0 && base % PAGE == 0
    && base + HEADER <= lpi.nextbase <= base + PAGE
    && lpi.remainingLen == base + PAGE - lpi.nextbase
    && |lpi.bytes| == PAGE
    && (forall i :: lpi.nextbase - base <= i < PAGE ==> lpi.bytes[i] == 0)
    && lpi.nalloc == |LiveIn(w.live, base)|
    && (base != w.h.active ==> lpi.nalloc > 0)
    && (lpi.nalloc == 0 ==> lpi.nextbase == base + HEADER)
  }

  // A live block is nonempty and lies in one owned page, past the header and below the
  // next free byte.
  ghost predicate BlockOk(w: World, a: nat)
    requires a in w.live
  {
    && w.live[a] > 0
    && PageOf(a) in w.h.pages
    && PageOf(a) + HEADER <= a
    && a + w.live[a] <= w.h.pages[PageOf(a)].nextbase
  }

  ghost predicate Apart(live: map<nat, nat>, a: nat, b: nat)
    requires a in live && b in live
  {
    a + live[a] <= b || b + live[b] <= a
  }

  ghost predicate Inv(w: World) {
    && HasActive(w.h)
    && (forall base :: base in w.h.pages ==> PageOk(w, base))
    && (forall a :: a in w.live ==> BlockOk(w, a))
    && (forall a, b :: a in w.live && b in w.live && a != b ==> Apart(w.live, a, b))
  }

  ghost predicate Within(live: map<nat, nat>, a: nat, addr: nat) {
    a in live && a <= addr < a + live[a]
  }

  // The client asks for 1 to 2048 bytes, writes inside live blocks, frees live blocks.
  ghost predicate Enabled(w: World, e: Event) {
    match e
    case Allocate(len, base) => HasActive(w.h) && 1 <= len <= LARGEST && FreshPage(w.h, base)
    case Write(addr, _) =>
      && PageOf(addr) in w.h.pages && |w.h.pages[PageOf(addr)].bytes| == PAGE
      && exists a :: Within(w.live, a, addr)
    case Release(ptr) => ptr in w.live && CanFree(w.h, ptr) && |w.h.pages[PageOf(ptr)].bytes| == PAGE
  }

  ghost function Step(w: World, e: Event): World
    requires Enabled(w, e)
  {
    match e
    case Allocate(len, base) =>
      var (h, ptr) := Alloc(w.h, len, base);
      World(h, w.live[ptr := len])
    case Write(addr, byte) => w.(h := Poke(w.h, addr, byte))
    case Release(ptr) => World(Free(w.h, ptr), w.live - {ptr})
  }

  // ---- allocation ----

  lemma NewPageInv(w: World, base: nat)
    requires Inv(w) && FreshPage(w.h, base)
    requires w.h.active != 0 ==> w.h.pages[w.h.active].nalloc > 0
    ensures Inv(World(PageAllocate(w.h, base), w.live))
  {
  }

  /** The page a block is cut from is the active one, or a new one. An active page that
      cannot serve the request has live blocks, so it is never lost. */
  lemma PageForInv(w: World, len: nat, base: nat)
    requires Inv(w) && len <= PAGE - HEADER && FreshPage(w.h, base)
    ensures Inv(World(PageFor(w.h, len, base), w.live))
  {
    if w.h.active == 0 {
      NewPageInv(w, base);
    } else {
      assert PageOk(w, w.h.active);
      if w.h.pages[w.h.active].remainingLen < len {
        NewPageInv(w, base);
      }
    }
  }

  lemma LiveInAdd(live: map<nat, nat>, ptr: nat, len: nat, base: nat)
    requires ptr !in live
    ensures |LiveIn(live[ptr := len], base)| == |LiveIn(live, base)| + (if PageOf(ptr) == base then 1 else 0)
  {
    assert LiveIn(live[ptr := len], base) == LiveIn(live, base) + (if PageOf(ptr) == base then {ptr} else {});
  }

  lemma LiveInRemove(live: map<nat, nat>, ptr: nat, base: nat)
    requires ptr in live
    ensures |LiveIn(live - {ptr}, base)| == |LiveIn(live, base)| - (if PageOf(ptr) == base then 1 else 0)
  {
    assert LiveIn(live, base) == LiveIn(live - {ptr}, base) + (if PageOf(ptr) == base then {ptr} else {});
  }

  lemma BelowNext(w: World, a: nat, ptr: nat, len: nat)
    requires Inv(w) && w.h.active in w.h.pages && ptr == w.h.pages[w.h.active].nextbase
    requires ptr + len <= w.h.active + PAGE && a in w.live
    ensures a + w.live[a] <= ptr || ptr + len <= a
  {
    assert BlockOk(w, a) && PageOk(w, PageOf(a)) && PageOk(w, w.h.active);
    if PageOf(a) < w.h.active {
      PagesApart(PageOf(a), w.h.active);
    } else if w.h.active < PageOf(a) {
      PagesApart(w.h.active, PageOf(a));
    }
  }

  // The bytes the next block will be cut from belong to no live block.
  lemma NextIsFree(w: World, len: nat)
    requires Inv(w) && w.h.active in w.h.pages && 1 <= len <= w.h.pages[w.h.active].remainingLen
    ensures var ptr := w.h.pages[w.h.active].nextbase;
            && PageOf(ptr) == w.h.active && ptr + len <= w.h.active + PAGE
            && ptr !in w.live
            && forall a :: a in w.live ==> a + w.live[a] <= ptr || ptr + len <= a
  {
    var ptr := w.h.pages[w.h.active].nextbase;
    assert PageOk(w, w.h.active);
    InPage(w.h.active, ptr);
    forall a | a in w.live ensures a + w.live[a] <= ptr || ptr + len <= a {
      BelowNext(w, a, ptr, len);
    }
    assert ptr in w.live ==> BlockOk(w, ptr);
  }

  lemma CutInv(w: World, len: nat)
    requires Inv(w) && w.h.active in w.h.pages && 1 <= len <= w.h.pages[w.h.active].remainingLen
    ensures Inv(World(Cut(w.h, len), w.live[w.h.pages[w.h.active].nextbase := len]))
  {
    var ptr := w.h.pages[w.h.active].nextbase;
    var w' := World(Cut(w.h, len), w.live[ptr := len]);
    NextIsFree(w, len);
    forall b | b in w'.h.pages ensures PageOk(w', b) {
      assert PageOk(w, b);
      LiveInAdd(w.live, ptr, len, b);
    }
    forall a | a in w'.live ensures BlockOk(w', a) {
      assert a != ptr ==> BlockOk(w, a);
      assert PageOk(w, w.h.active);
    }
    forall a, b | a in w'.live && b in w'.live && a != b ensures Apart(w'.live, a, b) {
      assert a != ptr && b != ptr ==> Apart(w.live, a, b);
    }
  }

  // ---- freeing ----

  lemma LastBlock(w: World, base: nat, ptr: nat, a: nat)
    requires base in w.h.pages && PageOk(w, base) && w.h.pages[base].nalloc == 1
    requires ptr in w.live && a in w.live && PageOf(ptr) == PageOf(a) == base
    ensures a == ptr
  {
    if a != ptr {
      assert {a, ptr} <= LiveIn(w.live, base);
      SetAtLeast(LiveIn(w.live, base), a, ptr);
    }
  }

  lemma SetAtLeast(s: set<nat>, a: nat, b: nat)
    requires a in s && b in s && a != b
    ensures |s| >= 2
  {
    assert |s - {a}| == |s| - 1 && b in s - {a};
  }

  lemma ReleaseInv(w: World, ptr: nat)
    requires Inv(w) && Enabled(w, Release(ptr))
    ensures Inv(Step(w, Release(ptr)))
  {
    var w' := Step(w, Release(ptr));
    var base := PageOf(ptr);
    assert PageOk(w, base);
    forall b | b in w'.h.pages ensures PageOk(w', b) {
      assert PageOk(w, b);
      LiveInRemove(w.live, ptr, b);
    }
    forall a | a in w'.live ensures BlockOk(w', a) {
      assert BlockOk(w, a);
      if PageOf(a) == base && w.h.pages[base].nalloc == 1 {
        LastBlock(w, base, ptr, a);
      }
    }
    forall a, b | a in w'.live && b in w'.live && a != b ensures Apart(w'.live, a, b) {
      assert Apart(w.live, a, b);
    }
  }

  lemma WithinPage(w: World, a: nat, addr: nat)
    requires Inv(w) && Within(w.live, a, addr)
    ensures PageOf(a) in w.h.pages && PageOk(w, PageOf(a)) && BlockOk(w, a)
    ensures PageOf(addr) == PageOf(a) && addr % PAGE == addr - PageOf(a) && addr < w.h.pages[PageOf(a)].nextbase
  {
    assert BlockOk(w, a) && PageOk(w, PageOf(a));
    InPage(PageOf(a), addr);
  }

  lemma WriteInv(w: World, addr: nat, byte: nat)
    requires Inv(w) && Enabled(w, Write(addr, byte))
    ensures Inv(Step(w, Write(addr, byte)))
  {
    var w' := Step(w, Write(addr, byte));
    var a :| Within(w.live, a, addr);
    WithinPage(w, a, addr);
    forall b | b in w'.h.pages ensures PageOk(w', b) {
      assert PageOk(w, b);
    }
    forall b | b in w'.live ensures BlockOk(w', b) {
      assert BlockOk(w, b);
    }
  }

  lemma StepInv(w: World, e: Event)
    requires Inv(w) && Enabled(w, e)
    ensures Inv(Step(w, e))
  {
    match e
    case Allocate(len, base) =>
      PageForInv(w, len, base);
      CutInv(World(PageFor(w.h, len, base), w.live), len);
    case Write(addr, byte) => WriteInv(w, addr, byte);
    case Release(ptr) => ReleaseInv(w, ptr);
  }

  // A live block can always be freed.
  lemma LiveCanBeFreed(w: World, ptr: nat)
    requires Inv(w) && ptr in w.live
    ensures Enabled(w, Release(ptr))
  {
    assert BlockOk(w, ptr) && PageOk(w, PageOf(ptr));
    assert ptr in LiveIn(w.live, PageOf(ptr));
  }

  ghost predicate Legal(w: World, es: seq<Event>)
    decreases |es|
  {
    es == [] || (Enabled(w, es[0]) && Legal(Step(w, es[0]), es[1..]))
  }

  ghost function Run(w: World, es: seq<Event>): World
    requires Legal(w, es)
    decreases |es|
  {
    if es == [] then w else Run(Step(w, es[0]), es[1..])
  }

  lemma {:induction false} RunInv(w: World, es: seq<Event>)
    requires Inv(w) && Legal(w, es)
    ensures Inv(Run(w, es))
    decreases |es|
  {
    if es != [] {
      StepInv(w, es[0]);
      RunInv(Step(w, es[0]), es[1..]);
    }
  }

  ghost function Byte(h: Heap, addr: nat): nat {
    if PageOf(addr) in h.pages && |h.pages[PageOf(addr)].bytes| == PAGE then h.pages[PageOf(addr)].bytes[addr % PAGE]
    else 0
  }

  /** After any run, live blocks are pairwise disjoint; each lies inside one owned page
      past its header and is never page-aligned, so yfree sends it to the right side. */
  lemma LiveBlocksSafe(es: seq<Event>)
    requires Legal(World(NOTHING, map[]), es)
    ensures var w := Run(World(NOTHING, map[]), es);
            && (forall a, b :: a in w.live && b in w.live && a != b ==> Apart(w.live, a, b))
            && forall a :: a in w.live ==>
                 && PageOf(a) in w.h.pages && PageOf(a) + HEADER <= a && a + w.live[a] <= PageOf(a) + PAGE
                 && FreesLittle(a)
  {
    RunInv(World(NOTHING, map[]), es);
    var w := Run(World(NOTHING, map[]), es);
    forall a | a in w.live
      ensures PageOf(a) in w.h.pages && PageOf(a) + HEADER <= a && a + w.live[a] <= PageOf(a) + PAGE && FreesLittle(a)
    {
      assert BlockOk(w, a) && PageOk(w, PageOf(a));
    }
  }

  /** A block is all zero when handed out, also on a page that was used and emptied, and
      overlaps no live block. */
  lemma HandedOutZero(w: World, len: nat, base: nat, addr: nat)
    requires Inv(w) && Enabled(w, Allocate(len, base))
    ensures var (h, ptr) := Alloc(w.h, len, base);
            && ptr !in w.live
            && (ptr <= addr < ptr + len ==> Byte(h, addr) == 0 && forall a :: a in w.live ==> !Within(w.live, a, addr))
  {
    PageForInv(w, len, base);
    CutIsZero(World(PageFor(w.h, len, base), w.live), len, addr);
  }

  lemma CutIsZero(w: World, len: nat, addr: nat)
    requires Inv(w) && w.h.active in w.h.pages && 1 <= len <= w.h.pages[w.h.active].remainingLen
    ensures var ptr := w.h.pages[w.h.active].nextbase;
            && ptr !in w.live
            && (ptr <= addr < ptr + len ==>
                  && Byte(Cut(w.h, len), addr) == 0
                  && forall a :: a in w.live ==> !Within(w.live, a, addr))
  {
    var ptr := w.h.pages[w.h.active].nextbase;
    assert PageOk(w, w.h.active);
    NextIsFree(w, len);
    if ptr <= addr < ptr + len {
      InPage(w.h.active, addr);
    }
  }

  ghost predicate KeepsByte(w: World, w': World, a: nat, addr: nat) {
    a in w.live && a in w'.live && w'.live[a] == w.live[a] && Byte(w'.h, addr) == Byte(w.h, addr)
  }

  lemma AllocateKeeps(w: World, len: nat, base: nat, a: nat, addr: nat)
    requires Inv(w) && Enabled(w, Allocate(len, base)) && Within(w.live, a, addr)
    ensures KeepsByte(w, Step(w, Allocate(len, base)), a, addr)
  {
    WithinPage(w, a, addr);
    PageForInv(w, len, base);
    NextIsFree(World(PageFor(w.h, len, base), w.live), len);
  }

  lemma ReleaseKeeps(w: World, ptr: nat, a: nat, addr: nat)
    requires Inv(w) && Enabled(w, Release(ptr)) && Within(w.live, a, addr) && a != ptr
    ensures KeepsByte(w, Step(w, Release(ptr)), a, addr)
  {
    WithinPage(w, a, addr);
    if PageOf(a) == PageOf(ptr) && w.h.pages[PageOf(ptr)].nalloc == 1 {
      LastBlock(w, PageOf(ptr), ptr, a);
    }
  }

  /** A live block keeps what its owner wrote: allocating and freeing leave every byte of
      the other live blocks alone, and a write changes only its own byte. */
  lemma LiveBytesKept(w: World, e: Event, a: nat, addr: nat)
    requires Inv(w) && Enabled(w, e) && Within(w.live, a, addr)
    requires e.Release? ==> e.ptr != a
    ensures a in Step(w, e).live && Step(w, e).live[a] == w.live[a]
    ensures Byte(Step(w, e).h, addr) == if e.Write? && e.addr == addr then e.byte else Byte(w.h, addr)
  {
    match e
    case Allocate(len, base) => AllocateKeeps(w, len, base, a, addr);
    case Write(at, byte) =>
      WithinPage(w, a, addr);
      if PageOf(at) == PageOf(addr) && at != addr {
        assert at % PAGE != addr % PAGE;
      }
    case Release(ptr) => ReleaseKeeps(w, ptr, a, addr);
  }

  // ---- reclamation ----

  lemma {:induction false} ImageSize(live: set<nat>, pages: set<nat>)
    requires forall b :: b in pages ==> exists a :: a in live && PageOf(a) == b
    ensures |pages| <= |live|
  {
    if pages != {} {
      var b :| b in pages;
      var a :| a in live && PageOf(a) == b;
      forall c | c in pages - {b} ensures exists x :: x in live - {a} && PageOf(x) == c {
        var x :| x in live && PageOf(x) == c;
        assert x in live - {a};
      }
      ImageSize(live - {a}, pages - {b});
    }
  }

  /** Pages are given back: at any moment of any run there is at most one page more than
      live blocks, so once everything is freed at most one page remains; and each page's
      count is that of its live blocks. */
  lemma PagesReclaimed(es: seq<Event>)
    requires Legal(World(NOTHING, map[]), es)
    ensures var w := Run(World(NOTHING, map[]), es);
            && |w.h.pages| <= |w.live| + 1
            && (forall base :: base in w.h.pages ==> w.h.pages[base].nalloc == |LiveIn(w.live, base)|)
            && (forall base :: base in w.h.pages && base != w.h.active ==> w.h.pages[base].nalloc > 0)
  {
    RunInv(World(NOTHING, map[]), es);
    var w := Run(World(NOTHING, map[]), es);
    var others := w.h.pages.Keys - {w.h.active};
    forall b | b in others ensures exists a :: a in w.live.Keys && PageOf(a) == b {
      assert PageOk(w, b);
      assert LiveIn(w.live, b) != {};
      var a :| a in LiveIn(w.live, b);
    }
    ImageSize(w.live.Keys, others);
    assert |w.h.pages.Keys| <= |others| + 1;
    forall base | base in w.h.pages
      ensures w.h.pages[base].nalloc == |LiveIn(w.live, base)|
      ensures base != w.h.active ==> w.h.pages[base].nalloc > 0
    {
      assert PageOk(w, base);
    }
  }

  /** Only an empty request on an exactly full page gets a page-aligned address, which
      yfree would take for a large block. */
  lemma AlignedOnlyWhenEmptyOnFullPage(w: World, len: nat, base: nat)
    requires Inv(w) && len <= LARGEST && FreshPage(w.h, base)
    ensures FreesLittle(Alloc(w.h, len, base).1)
       <==> !(len == 0 && w.h.active != 0 && w.h.pages[w.h.active].remainingLen == 0)
  {
    PageForInv(w, len, base);
    var h1 := PageFor(w.h, len, base);
    NextAligned(World(h1, w.live));
    if w.h.active != 0 {
      assert PageOk(w, w.h.active);
    }
  }

  /** Such a page is reached: 2048 and 2036 bytes fill one, and an empty request is then
      answered with the address of the page after it. */
  lemma FullPageReached(p: nat, q: nat)
    requires p > 0 && p % PAGE == 0 && q > 0 && q % PAGE == 0 && p != q
    ensures var es := [Allocate(2048, p), Allocate(2036, q)];
            && Legal(World(NOTHING, map[]), es)
            && var w := Run(World(NOTHING, map[]), es);
               FreshPage(w.h, q) && HasActive(w.h) && Alloc(w.h, 0, q).1 == p + PAGE && !FreesLittle(p + PAGE)
  {
    var w0 := World(NOTHING, map[]);
    var w1 := Step(w0, Allocate(2048, p));
    assert w1.h.pages[p].remainingLen == 2036 && w1.h.active == p && w1.h.pages.Keys == {p};
    var w2 := Step(w1, Allocate(2036, q));
    assert w2.h.pages[p].remainingLen == 0 && w2.h.active == p && w2.h.pages.Keys == {p};
    var es := [Allocate(2048, p), Allocate(2036, q)];
    assert es[1..] == [Allocate(2036, q)] && es[1..][1..] == [];
    assert Legal(w2, []) && Run(w2, []) == w2;
    assert Legal(w1, es[1..]) && Run(w1, es[1..]) == w2;
  }

  lemma NextAligned(w: World)
    requires Inv(w) && w.h.active in w.h.pages
    ensures FreesLittle(w.h.pages[w.h.active].nextbase) <==> w.h.pages[w.h.active].remainingLen != 0
  {
    assert PageOk(w, w.h.active);
    AlignedAtEnd(w.h.active, w.h.pages[w.h.active].nextbase);
  }

  lemma AlignedAtEnd(base: nat, addr: nat)
    requires base % PAGE == 0 && base + HEADER <= addr <= base + PAGE
    ensures addr % PAGE == 0 <==> addr == base + PAGE
  {
  }
}
