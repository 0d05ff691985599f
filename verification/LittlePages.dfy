/** The small-block allocator as the program keeps it: page headers and page memory
    changed in place. The pages the operating system hands out are arguments. */
module LittlePages {
  import opened BigBook
  import opened LittleAllocator
  import opened Scheduling

  class LittlePage {
    const base: nat
    var nalloc: nat
    var remainingLen: nat
    var nextbase: nat
    const bytes: array<nat>

    // A new page comes zero-filled.
    constructor (base: nat)
      ensures this.base == base && bytes.Length == PAGE && View() == EmptyPage(base) && fresh(bytes)
    {
      this.base := base;
      nalloc, remainingLen, nextbase := 0, PAGE - HEADER, base + HEADER;
      bytes := new nat[PAGE](_ => 0);
      new;
      assert bytes[..] == seq(PAGE, _ => 0);
    }

    ghost function View(): Page
      reads this, bytes
    {
      Page(nalloc, remainingLen, nextbase, bytes[..])
    }

    // Everything past the header back to zero.
    method Wipe()
      requires bytes.Length == PAGE
      modifies this, bytes
      ensures View() == Page(old(nalloc), PAGE - HEADER, base + HEADER, Wiped(old(bytes[..])))
    {
      remainingLen := PAGE - HEADER;
      nextbase := base + HEADER;
      forall i | HEADER <= i < PAGE {
        bytes[i] := 0;
      }
      assert bytes[..] == Wiped(old(bytes[..]));
    }
  }

  class LittlePageAllocator {
    var pages: map<nat, LittlePage>
    var active: nat
    var books: seq<Bucket>
    ghost var model: Heap

    ghost function Objects(): set<object>
      reads this
    {
      (set b | b in pages :: pages[b] as object) + (set b | b in pages :: pages[b].bytes as object)
    }

    // The model is the pages' contents; a page is filed under its own address, and no
    // two share memory.
    ghost predicate Valid()
      reads this, Objects()
    {
      && active == model.active
      && |books| == BUCKETS
      && pages.Keys == model.pages.Keys
      && (forall b :: b in pages ==> PageValid(b))
      && (forall b, c :: b in pages && c in pages && b != c ==> pages[b].bytes != pages[c].bytes)
    }

    ghost predicate PageValid(b: nat)
      requires b in pages && b in model.pages
      reads this, pages[b], pages[b].bytes
    {
      pages[b].base == b && pages[b].bytes.Length == PAGE && pages[b].View() == model.pages[b]
    }

    constructor ()
      ensures Valid() && model == NOTHING && books == Blank()
    {
      pages, active, books, model := map[], 0, Blank(), NOTHING;
    }

    method PageAllocate(base: nat)
      requires Valid() && FreshPage(model, base)
      modifies this
      ensures Valid() && model == LittleAllocator.PageAllocate(old(model), base) && books == old(books)
      ensures forall b :: b in old(pages) ==> b in pages && pages[b] == old(pages)[b]
      ensures fresh(pages[base]) && fresh(pages[base].bytes)
    {
      var page := new LittlePage(base);
      pages := pages[base := page];
      active := base;
      model := LittleAllocator.PageAllocate(model, base);
      forall b | b in pages ensures PageValid(b) {
        assert b != base ==> old(PageValid(b));
      }
    }

    method GetLittlePage(base: nat)
      requires Valid() && HasActive(model) && FreshPage(model, base)
      modifies this
      ensures Valid() && model == GetPage(old(model), base) && books == old(books)
      ensures forall b :: b in pages && b !in old(pages) ==> fresh(pages[b]) && fresh(pages[b].bytes)
      ensures forall b :: b in pages && b in old(pages) ==> pages[b] == old(pages)[b]
    {
      assert active != 0 ==> PageValid(active);
      if active == 0 {
        PageAllocate(base);
      } else if pages[active].nextbase == 0 {
        PageAllocate(base);
      }
    }

    method CutBlock(len: nat) returns (ptr: nat)
      requires Valid() && active in pages && len <= model.pages[active].remainingLen
      modifies this`model, pages[active]
      ensures Valid() && model == Cut(old(model), len) && ptr == old(model).pages[active].nextbase
      ensures pages == old(pages)
    {
      var lpi := pages[active];
      assert PageValid(active);
      ptr := lpi.nextbase;
      lpi.remainingLen := lpi.remainingLen - len;
      lpi.nextbase := lpi.nextbase + len;
      lpi.nalloc := lpi.nalloc + 1;
      model := Cut(model, len);
      forall b | b in pages ensures PageValid(b) {
        assert old(PageValid(b));
      }
    }

    // The page the block will be cut from; the page allocator is asked at most once.
    method ReadyPage(len: nat, base: nat)
      requires Valid() && HasActive(model) && FreshPage(model, base) && len <= LARGEST
      modifies this
      ensures Valid() && model == PageFor(old(model), len, base) && active in pages && books == old(books)
      ensures forall b :: b in pages && b !in old(pages) ==> fresh(pages[b]) && fresh(pages[b].bytes)
      ensures forall b :: b in pages && b in old(pages) ==> pages[b] == old(pages)[b]
    {
      GetLittlePage(base);
      assert PageValid(active);
      if pages[active].remainingLen < len {
        PageAllocate(base);
      }
    }

    method LittleAlloc(len: nat, base: nat) returns (ptr: nat)
      requires Valid() && HasActive(model) && FreshPage(model, base) && len <= LARGEST
      modifies this, Objects()
      ensures Valid() && (model, ptr) == Alloc(old(model), len, base) && books == old(books)
      ensures fresh(Objects() - old(Objects()))
    {
      ReadyPage(len, base);
      ptr := CutBlock(len);
    }

    method LittleFree(ptr: nat)
      requires Valid() && CanFree(model, ptr) && |model.pages[PageOf(ptr)].bytes| == PAGE
      modifies this, Objects()
      ensures Valid() && model == Free(old(model), ptr) && books == old(books)
      ensures Objects() <= old(Objects())
    {
      var base := PageOf(ptr);
      var lpi := pages[base];
      assert PageValid(base);
      model := Free(model, ptr);
      lpi.nalloc := lpi.nalloc - 1;
      if lpi.nalloc == 0 {
        if base == active {
          lpi.Wipe();
        } else {
          pages := pages - {base};
        }
      }
      forall b | b in pages ensures PageValid(b) {
        assert old(PageValid(b));
      }
    }

    // The walk along the chain, to the entry found or to the end.
    method FindEntry(chain: seq<Entry>, lptr: nat) returns (k: nat)
      ensures k == First(chain, lptr)
    {
      k := 0;
      while k < |chain| && chain[k].lptr != lptr
        invariant k <= |chain| && First(chain, lptr) == k + First(chain[k..], lptr)
      {
        assert chain[k..][1..] == chain[k + 1..];
        k := k + 1;
      }
    }

    // A used head is left alone; what follows it is chained, in memory of the small side.
    method BigBookInsert(lptr: nat, len: nat, base: nat)
      requires Valid() && HasActive(model) && FreshPage(model, base)
      modifies this, Objects()
      ensures Valid() && fresh(Objects() - old(Objects()))
      ensures model == InsertedHeap(old(model), old(books), lptr, base).0
      ensures books == Inserted(old(books), lptr, len, InsertedHeap(old(model), old(books), lptr, base).1)
    {
      var idx := lptr / PAGE % BUCKETS;
      var head := books[idx];
      if head.lptr == 0 {
        books := books[idx := head.(lptr := lptr, len := len)];
      } else {
        var node := LittleAlloc(ENTRY, base);
        books := books[idx := head.(chain := head.chain + [Entry(lptr, len, node)])];
      }
    }

    method BigBookEatLen(lptr: nat) returns (len: nat)
      requires Valid() && CanEat(model, books[Slot(lptr)], lptr)
      modifies this, Objects()
      ensures Valid() && Objects() <= old(Objects())
      ensures len == LengthOf(old(books)[Slot(lptr)], lptr) && books == Eaten(old(books), lptr)
      ensures model == EatenHeap(old(model), old(books)[Slot(lptr)], lptr)
    {
      var idx := lptr / PAGE % BUCKETS;
      var head := books[idx];
      if head.lptr == lptr {
        len := head.len;
      } else {
        var k := FindEntry(head.chain, lptr);
        len := head.chain[k].len;
        books := books[idx := head.(chain := head.chain[..k] + head.chain[k + 1..])];
        LittleFree(head.chain[k].node);
      }
    }

    /** A short request is cut from a page; a long one gets whole pages at the address the
        page allocator answers, and an entry in the book; `taken` is the length the page
        allocator is asked for. */
    method YAlloc(len: nat, at: nat, base: nat) returns (ptr: nat, taken: Option<nat>)
      requires Valid() && HasActive(model) && FreshPage(model, base)
      modifies this, Objects()
      ensures Valid() && fresh(Objects() - old(Objects()))
      ensures GoesLittle(len) ==> (model, ptr) == Alloc(old(model), len, base) && books == old(books)
      ensures !GoesLittle(len) ==>
                && ptr == at
                && model == InsertedHeap(old(model), old(books), at, base).0
                && books == Inserted(old(books), at, Rounded(len), InsertedHeap(old(model), old(books), at, base).1)
      ensures taken == if GoesLittle(len) then None else Some(Rounded(len))
      ensures taken.Some? <==> LARGEST < len
      ensures LARGEST < len <= WORD - PAGE ==> taken.value % PAGE == 0 && len <= taken.value < len + PAGE
    {
      if len > LARGEST {
        ghost var asked := len;
        var len := (len + PAGE - 1) % WORD / PAGE * PAGE;
        if asked < WORD {
          RoundedUp(asked);
        }
        ptr, taken := at, Some(len);
        BigBookInsert(at, len, base);
      } else {
        ptr := LittleAlloc(len, base);
        taken := None;
      }
    }

    /** `whole` is the length the page allocator is given back, if the address is a large
        block's. */
    method YFree(ptr: nat) returns (whole: Option<nat>)
      requires Valid()
      requires FreesLittle(ptr) ==> CanFree(model, ptr) && |model.pages[PageOf(ptr)].bytes| == PAGE
      requires !FreesLittle(ptr) ==> CanEat(model, books[Slot(ptr)], ptr)
      modifies this, Objects()
      ensures Valid() && Objects() <= old(Objects())
      ensures FreesLittle(ptr) ==> whole == None && model == Free(old(model), ptr) && books == old(books)
      ensures !FreesLittle(ptr) ==>
                && whole == Some(LengthOf(old(books)[Slot(ptr)], ptr))
                && books == Eaten(old(books), ptr)
                && model == EatenHeap(old(model), old(books)[Slot(ptr)], ptr)
    {
      if ptr % PAGE != 0 {
        LittleFree(ptr);
        whole := None;
      } else {
        var len := BigBookEatLen(ptr);
        whole := Some(len);
      }
    }
  }
}
