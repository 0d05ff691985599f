/** The book of large blocks as a value: 256 head entries that live in a table and are
    never cleared, each with a chain of entries cut from the small side. */
module BigBook {
  import opened LittleAllocator

  const BUCKETS: nat := 256
  const ENTRY: nat := 12        // a chained entry's own memory
  const WORD: nat := 0x1_0000_0000

  // node: where the entry itself lies on the small side.
  datatype Entry = Entry(lptr: nat, len: nat, node: nat)

  // The head entry, lptr 0 while unused, and what is chained to it.
  datatype Bucket = Bucket(lptr: nat, len: nat, chain: seq<Entry>)

  function Blank(): seq<Bucket> { seq(BUCKETS, _ => Bucket(0, 0, [])) }

  function Slot(lptr: nat): (i: nat) ensures i < BUCKETS { lptr / PAGE % BUCKETS }

  // 256 pages in a row have 256 slots; the next ones share them again.
  lemma SlotsGoRound(lptr: nat, d: nat)
    ensures Slot(lptr + PAGE * d) == Slot(lptr) <==> d % 256 == 0
  {
    assert (lptr + PAGE * d) / PAGE == lptr / PAGE + d;
    var a := lptr / PAGE;
    assert (a + d) % BUCKETS == (a % BUCKETS + d % BUCKETS) % BUCKETS;
  }

  // A request in whole pages; the sum leaves the word for the last 4095 lengths.
  function Rounded(len: nat): nat { (len + PAGE - 1) % WORD / PAGE * PAGE }

  /** Whole pages, as few as hold the request, exactly if the sum stays in the word; for the
      last 4095 lengths there is nothing. */
  lemma RoundedUp(len: nat)
    requires len < WORD
    ensures Rounded(len) % PAGE == 0
    ensures len <= WORD - PAGE ==> len <= Rounded(len) < len + PAGE
    ensures len > WORD - PAGE ==> Rounded(len) == 0
  {
    var sum := (len + PAGE - 1) % WORD;
    assert sum / PAGE * PAGE == sum - sum % PAGE;
    assert Rounded(len) == PAGE * (sum / PAGE);
  }

  // The first entry of the chain for that address, or the chain's length.
  function First(chain: seq<Entry>, lptr: nat): (k: nat)
    ensures k <= |chain| && (k < |chain| ==> chain[k].lptr == lptr)
    ensures forall j :: 0 <= j < k ==> chain[j].lptr != lptr
  {
    if chain == [] || chain[0].lptr == lptr then 0 else 1 + First(chain[1..], lptr)
  }

  predicate Chained(book: seq<Bucket>, lptr: nat)
    requires |book| == BUCKETS
  {
    book[Slot(lptr)].lptr != 0
  }

  // `node` is where the small side put the entry, if it was asked for one.
  function Inserted(book: seq<Bucket>, lptr: nat, len: nat, node: nat): seq<Bucket>
    requires |book| == BUCKETS
  {
    var b := book[Slot(lptr)];
    book[Slot(lptr) := if Chained(book, lptr) then b.(chain := b.chain + [Entry(lptr, len, node)])
                       else b.(lptr := lptr, len := len)]
  }

  function InsertedHeap(h: Heap, book: seq<Bucket>, lptr: nat, base: nat): (Heap, nat)
    requires |book| == BUCKETS && HasActive(h) && base > 0
  {
    if Chained(book, lptr) then Alloc(h, ENTRY, base) else (h, 0)
  }

  // The program's search runs off the chain for an address that is not recorded.
  predicate Recorded(b: Bucket, lptr: nat) {
    b.lptr == lptr || First(b.chain, lptr) < |b.chain|
  }

  function LengthOf(b: Bucket, lptr: nat): nat
    requires Recorded(b, lptr)
  {
    if b.lptr == lptr then b.len else b.chain[First(b.chain, lptr)].len
  }

  function NodeOf(b: Bucket, lptr: nat): nat
    requires Recorded(b, lptr) && b.lptr != lptr
  {
    b.chain[First(b.chain, lptr)].node
  }

  function Eaten(book: seq<Bucket>, lptr: nat): seq<Bucket>
    requires |book| == BUCKETS && Recorded(book[Slot(lptr)], lptr)
  {
    var b := book[Slot(lptr)];
    if b.lptr == lptr then book
    else
      var k := First(b.chain, lptr);
      book[Slot(lptr) := b.(chain := b.chain[..k] + b.chain[k + 1..])]
  }

  predicate CanEat(h: Heap, b: Bucket, lptr: nat) {
    && Recorded(b, lptr)
    && (b.lptr != lptr ==>
          CanFree(h, NodeOf(b, lptr)) && |h.pages[PageOf(NodeOf(b, lptr))].bytes| == PAGE)
  }

  function EatenHeap(h: Heap, b: Bucket, lptr: nat): Heap
    requires CanEat(h, b, lptr)
  {
    if b.lptr == lptr then h else Free(h, NodeOf(b, lptr))
  }

  // ---- both sides with their client ----

  // large: the large blocks handed out and not yet freed, with the lengths taken for them;
  // asked: the lengths their clients asked for.
  datatype Memory = Memory(w: World, book: seq<Bucket>, large: map<nat, nat>, asked: map<nat, nat>)

  function Unused(): Memory { Memory(World(NOTHING, map[]), Blank(), map[], map[]) }

  // Small requests and frees pass through; the page call answers `at`, and `base` when the
  // small side asks for a page.
  datatype Call =
    | Small(e: Event)
    | Take(len: nat, at: nat, base: nat)
    | Give(ptr: nat)

  ghost predicate IsNode(book: seq<Bucket>, a: nat) {
    exists i, j :: 0 <= i < |book| && 0 <= j < |book[i].chain| && book[i].chain[j].node == a
  }

  // The client frees no entry of the book and writes into none.
  ghost predicate OfClient(m: Memory, e: Event) {
    match e
    case Allocate(_, _) => true
    case Write(addr, _) => exists a :: Within(m.w.live, a, addr) && !IsNode(m.book, a)
    case Release(ptr) => !IsNode(m.book, ptr)
  }

  predicate IsPage(a: nat) { a > 0 && a % PAGE == 0 }

  // A small call, whatever page `base` is.
  ghost predicate SmallCan(w: World, e: Event) {
    match e
    case Allocate(len, base) => HasActive(w.h) && 1 <= len <= LARGEST && IsPage(base)
    case Write(_, _) => Enabled(w, e)
    case Release(_) => Enabled(w, e)
  }

  ghost function SmallStep(w: World, e: Event): World
    requires SmallCan(w, e)
  {
    if e.Allocate? then
      var (h, ptr) := Alloc(w.h, e.len, e.base);
      World(h, w.live[ptr := e.len])
    else
      Step(w, e)
  }

  ghost predicate CanCall(m: Memory, c: Call) {
    && |m.book| == BUCKETS
    && match c
       case Small(e) => SmallCan(m.w, e) && OfClient(m, e)
       case Take(len, at, base) => LARGEST < len < WORD && HasActive(m.w.h) && IsPage(at) && IsPage(base)
       case Give(ptr) =>
         && ptr in m.large && Recorded(m.book[Slot(ptr)], ptr)
         && (m.book[Slot(ptr)].lptr != ptr ==> Enabled(m.w, Release(NodeOf(m.book[Slot(ptr)], ptr))))
  }

  // What the page calls answer is not something the two sides hold already.
  ghost predicate AnsweredFresh(m: Memory, c: Call) {
    match c
    case Small(e) => e.Allocate? ==> e.base !in m.w.h.pages
    case Take(_, at, base) => at !in m.large && base !in m.w.h.pages
    case Give(_) => true
  }

  ghost function TakeStep(m: Memory, len: nat, at: nat, base: nat): Memory
    requires CanCall(m, Take(len, at, base))
  {
    var (h, node) := InsertedHeap(m.w.h, m.book, at, base);
    Memory(World(h, if Chained(m.book, at) then m.w.live[node := ENTRY] else m.w.live),
           Inserted(m.book, at, Rounded(len), node), m.large[at := Rounded(len)], m.asked[at := len])
  }

  ghost function GiveStep(m: Memory, ptr: nat): Memory
    requires CanCall(m, Give(ptr))
  {
    var b := m.book[Slot(ptr)];
    Memory(World(EatenHeap(m.w.h, b, ptr), if b.lptr == ptr then m.w.live else m.w.live - {NodeOf(b, ptr)}),
           Eaten(m.book, ptr), m.large - {ptr}, m.asked - {ptr})
  }

  ghost function CallStep(m: Memory, c: Call): Memory
    requires CanCall(m, c)
  {
    match c
    case Small(e) => m.(w := SmallStep(m.w, e))
    case Take(len, at, base) => TakeStep(m, len, at, base)
    case Give(ptr) => GiveStep(m, ptr)
  }

  // A chained entry lies in its own live 12 bytes, under its own slot, behind a used head.
  ghost predicate EntryOk(b: Bucket, i: nat, live: map<nat, nat>, large: map<nat, nat>, j: nat)
    requires j < |b.chain|
  {
    var e := b.chain[j];
    && b.lptr != 0 && Slot(e.lptr) == i
    && e.node in live && live[e.node] == ENTRY
    && (e.lptr != b.lptr ==> e.lptr in large && large[e.lptr] == e.len)
  }

  // Two entries share neither memory nor address; entries for the head's own address aside.
  ghost predicate EntriesApart(b: Bucket, j: nat, k: nat)
    requires j < |b.chain| && k < |b.chain|
  {
    && b.chain[j].node != b.chain[k].node
    && (b.chain[j].lptr != b.lptr ==> b.chain[j].lptr != b.chain[k].lptr)
  }

  ghost predicate BucketIn(b: Bucket, i: nat, live: map<nat, nat>, large: map<nat, nat>) {
    && (b.lptr != 0 ==> Slot(b.lptr) == i)
    && (forall j :: 0 <= j < |b.chain| ==> EntryOk(b, i, live, large, j))
    && (forall j, k :: 0 <= j < |b.chain| && 0 <= k < |b.chain| && j != k ==> EntriesApart(b, j, k))
  }

  ghost predicate BucketOk(m: Memory, i: nat)
    requires i < |m.book|
  {
    BucketIn(m.book[i], i, m.w.live, m.large)
  }

  ghost predicate NodesApart(b: Bucket, c: Bucket) {
    forall j, k :: 0 <= j < |b.chain| && 0 <= k < |c.chain| ==> b.chain[j].node != c.chain[k].node
  }

  ghost predicate BookInv(m: Memory) {
    && |m.book| == BUCKETS
    && (forall i :: 0 <= i < BUCKETS ==> BucketOk(m, i))
    && (forall i, j :: 0 <= i < BUCKETS && 0 <= j < BUCKETS && i != j ==> NodesApart(m.book[i], m.book[j]))
    && (forall p :: p in m.large ==> p > 0 && Recorded(m.book[Slot(p)], p))
  }

  ghost predicate MemoryInv(m: Memory) { Inv(m.w) && BookInv(m) }

  // ---- one bucket ----

  lemma {:induction false} FirstFinds(chain: seq<Entry>, lptr: nat, k: nat)
    requires k < |chain| && chain[k].lptr == lptr
    ensures First(chain, lptr) <= k
  {
  }

  // What a bucket's entries need may only grow.
  lemma BucketStays(b: Bucket, i: nat, live: map<nat, nat>, large: map<nat, nat>,
                    live': map<nat, nat>, large': map<nat, nat>)
    requires BucketIn(b, i, live, large)
    requires forall j :: 0 <= j < |b.chain| ==>
               && b.chain[j].node in live' && live'[b.chain[j].node] == ENTRY
               && (b.chain[j].lptr != b.lptr ==>
                     b.chain[j].lptr in large' && large'[b.chain[j].lptr] == b.chain[j].len)
    ensures BucketIn(b, i, live', large')
  {
    forall j | 0 <= j < |b.chain| ensures EntryOk(b, i, live', large', j) {
      assert EntryOk(b, i, live, large, j);
    }
  }

  lemma BucketGrows(b: Bucket, i: nat, live: map<nat, nat>, large: map<nat, nat>, e: Entry)
    requires BucketIn(b, i, live, large) && b.lptr != 0
    requires Slot(e.lptr) == i && e.node !in live && e.lptr !in large
    ensures BucketIn(b.(chain := b.chain + [e]), i, live[e.node := ENTRY], large[e.lptr := e.len])
  {
    var b' := b.(chain := b.chain + [e]);
    var live', large' := live[e.node := ENTRY], large[e.lptr := e.len];
    forall j | 0 <= j < |b'.chain| ensures EntryOk(b', i, live', large', j) {
      assert j < |b.chain| ==> EntryOk(b, i, live, large, j);
    }
    forall j, k | 0 <= j < |b'.chain| && 0 <= k < |b'.chain| && j != k ensures EntriesApart(b', j, k) {
      if j < |b.chain| && k < |b.chain| {
        assert EntriesApart(b, j, k);
      } else {
        assert EntryOk(b, i, live, large, if j < |b.chain| then j else k);
      }
    }
  }

  // Entry j of a chain after entry k was taken out.
  function Before(k: nat, j: nat): nat { if j < k then j else j + 1 }

  lemma BucketShrinks(b: Bucket, i: nat, live: map<nat, nat>, large: map<nat, nat>, k: nat)
    requires BucketIn(b, i, live, large) && k < |b.chain| && b.chain[k].lptr != b.lptr
    ensures BucketIn(b.(chain := b.chain[..k] + b.chain[k + 1..]), i,
                     live - {b.chain[k].node}, large - {b.chain[k].lptr})
  {
    var b' := b.(chain := b.chain[..k] + b.chain[k + 1..]);
    var live', large' := live - {b.chain[k].node}, large - {b.chain[k].lptr};
    forall j | 0 <= j < |b'.chain|
      ensures b'.chain[j] == b.chain[Before(k, j)]
      ensures EntryOk(b', i, live', large', j)
    {
      assert EntryOk(b, i, live, large, Before(k, j)) && EntriesApart(b, k, Before(k, j));
    }
    forall j, l | 0 <= j < |b'.chain| && 0 <= l < |b'.chain| && j != l ensures EntriesApart(b', j, l) {
      assert EntriesApart(b, Before(k, j), Before(k, l));
    }
  }

  // ---- what the calls keep ----

  lemma SmallKeepsLive(w: World, e: Event, a: nat)
    requires Inv(w) && Enabled(w, e) && a in w.live && (e.Release? ==> e.ptr != a)
    ensures a in Step(w, e).live && Step(w, e).live[a] == w.live[a]
  {
    if e.Allocate? {
      HandedOutZero(w, e.len, e.base, 0);
    }
  }

  lemma SmallKeeps(m: Memory, e: Event)
    requires MemoryInv(m) && CanCall(m, Small(e)) && AnsweredFresh(m, Small(e))
    ensures MemoryInv(CallStep(m, Small(e)))
  {
    StepInv(m.w, e);
    var m' := CallStep(m, Small(e));
    forall i | 0 <= i < BUCKETS ensures BucketOk(m', i) {
      var b := m.book[i];
      assert BucketOk(m, i);
      forall j | 0 <= j < |b.chain|
        ensures b.chain[j].node in m'.w.live && m'.w.live[b.chain[j].node] == ENTRY
        ensures b.chain[j].lptr != b.lptr ==> b.chain[j].lptr in m.large && m.large[b.chain[j].lptr] == b.chain[j].len
      {
        assert EntryOk(b, i, m.w.live, m.large, j);
        SmallKeepsLive(m.w, e, b.chain[j].node);
      }
      BucketStays(b, i, m.w.live, m.large, m'.w.live, m'.large);
    }
  }

  lemma TakeHead(m: Memory, len: nat, at: nat, base: nat)
    requires MemoryInv(m) && CanCall(m, Take(len, at, base)) && AnsweredFresh(m, Take(len, at, base))
    requires !Chained(m.book, at)
    ensures MemoryInv(TakeStep(m, len, at, base))
  {
    var m' := TakeStep(m, len, at, base);
    var s := Slot(at);
    assert BucketOk(m, s);
    assert m.book[s].chain != [] ==> EntryOk(m.book[s], s, m.w.live, m.large, 0);
    forall i | 0 <= i < BUCKETS ensures BucketOk(m', i) {
      assert BucketOk(m, i);
      if i != s {
        OtherBucket(m, i, m.w.live, at, Rounded(len));
      }
    }
    forall i, j | 0 <= i < BUCKETS && 0 <= j < BUCKETS && i != j ensures NodesApart(m'.book[i], m'.book[j]) {
      assert NodesApart(m.book[i], m.book[j]);
    }
  }

  // A bucket is not concerned by a new block's being recorded elsewhere.
  lemma OtherBucket(m: Memory, i: nat, live: map<nat, nat>, at: nat, len: nat)
    requires BookInv(m) && i < BUCKETS && at !in m.large
    requires forall a :: a in m.w.live ==> a in live && live[a] == m.w.live[a]
    ensures BucketIn(m.book[i], i, live, m.large[at := len])
  {
    var b := m.book[i];
    assert BucketOk(m, i);
    forall j | 0 <= j < |b.chain|
      ensures b.chain[j].node in live && live[b.chain[j].node] == ENTRY
      ensures b.chain[j].lptr != b.lptr ==> b.chain[j].lptr in m.large && m.large[b.chain[j].lptr] == b.chain[j].len
    {
      assert EntryOk(b, i, m.w.live, m.large, j);
    }
    BucketStays(b, i, m.w.live, m.large, live, m.large[at := len]);
  }

  // The chain's new entry lies in memory no entry lies in.
  lemma NewNode(m: Memory, base: nat)
    requires MemoryInv(m) && Enabled(m.w, Allocate(ENTRY, base))
    ensures var (h, node) := Alloc(m.w.h, ENTRY, base);
            && node !in m.w.live && Inv(World(h, m.w.live[node := ENTRY]))
            && forall i, j :: 0 <= i < BUCKETS && 0 <= j < |m.book[i].chain| ==> m.book[i].chain[j].node != node
  {
    StepInv(m.w, Allocate(ENTRY, base));
    HandedOutZero(m.w, ENTRY, base, 0);
    forall i, j | 0 <= i < BUCKETS && 0 <= j < |m.book[i].chain| ensures m.book[i].chain[j].node in m.w.live {
      assert BucketOk(m, i) && EntryOk(m.book[i], i, m.w.live, m.large, j);
    }
  }

  lemma TakeChainBucket(m: Memory, len: nat, at: nat, base: nat, i: nat)
    requires MemoryInv(m) && CanCall(m, Take(len, at, base)) && AnsweredFresh(m, Take(len, at, base))
    requires Chained(m.book, at) && i < BUCKETS
    ensures BucketOk(TakeStep(m, len, at, base), i)
  {
    var node := Alloc(m.w.h, ENTRY, base).1;
    NewNode(m, base);
    assert BucketOk(m, i);
    if i == Slot(at) {
      BucketGrows(m.book[i], i, m.w.live, m.large, Entry(at, Rounded(len), node));
    } else {
      OtherBucket(m, i, m.w.live[node := ENTRY], at, Rounded(len));
    }
  }

  lemma TakeRecorded(m: Memory, len: nat, at: nat, base: nat, p: nat)
    requires MemoryInv(m) && CanCall(m, Take(len, at, base)) && AnsweredFresh(m, Take(len, at, base))
    requires Chained(m.book, at)
    requires p == at || p in m.large
    ensures Recorded(TakeStep(m, len, at, base).book[Slot(p)], p)
  {
    var b := m.book[Slot(p)];
    var b' := TakeStep(m, len, at, base).book[Slot(p)];
    if p == at {
      FirstFinds(b'.chain, p, |b.chain|);
    } else if b.lptr != p {
      FirstFinds(b'.chain, p, First(b.chain, p));
    }
  }

  lemma TakeChain(m: Memory, len: nat, at: nat, base: nat)
    requires MemoryInv(m) && CanCall(m, Take(len, at, base)) && AnsweredFresh(m, Take(len, at, base))
    requires Chained(m.book, at)
    ensures MemoryInv(TakeStep(m, len, at, base))
  {
    var m' := TakeStep(m, len, at, base);
    NewNode(m, base);
    forall i | 0 <= i < BUCKETS ensures BucketOk(m', i) {
      TakeChainBucket(m, len, at, base, i);
    }
    forall i, j | 0 <= i < BUCKETS && 0 <= j < BUCKETS && i != j ensures NodesApart(m'.book[i], m'.book[j]) {
      assert NodesApart(m.book[i], m.book[j]);
    }
    forall p | p in m'.large ensures p > 0 && Recorded(m'.book[Slot(p)], p) {
      TakeRecorded(m, len, at, base, p);
    }
  }

  // ---- giving back ----

  // A live large block is on record, and its entry's own memory can be freed.
  lemma LargeCanBeGiven(m: Memory, ptr: nat)
    requires MemoryInv(m) && ptr in m.large
    ensures CanCall(m, Give(ptr))
  {
    var b := m.book[Slot(ptr)];
    if b.lptr != ptr {
      assert BucketOk(m, Slot(ptr)) && EntryOk(b, Slot(ptr), m.w.live, m.large, First(b.chain, ptr));
      LiveCanBeFreed(m.w, NodeOf(b, ptr));
    }
  }

  lemma GiveHead(m: Memory, ptr: nat)
    requires MemoryInv(m) && CanCall(m, Give(ptr)) && m.book[Slot(ptr)].lptr == ptr
    ensures MemoryInv(GiveStep(m, ptr))
  {
    var m' := GiveStep(m, ptr);
    forall i | 0 <= i < BUCKETS ensures BucketOk(m', i) {
      var b := m.book[i];
      assert BucketOk(m, i);
      forall j | 0 <= j < |b.chain|
        ensures b.chain[j].node in m.w.live && m.w.live[b.chain[j].node] == ENTRY
        ensures b.chain[j].lptr != b.lptr ==>
                  b.chain[j].lptr in m'.large && m'.large[b.chain[j].lptr] == b.chain[j].len
      {
        assert EntryOk(b, i, m.w.live, m.large, j);
      }
      BucketStays(b, i, m.w.live, m.large, m'.w.live, m'.large);
    }
  }

  lemma GiveChainBucket(m: Memory, ptr: nat, i: nat)
    requires MemoryInv(m) && CanCall(m, Give(ptr)) && m.book[Slot(ptr)].lptr != ptr && i < BUCKETS
    ensures BucketOk(GiveStep(m, ptr), i)
  {
    var s, b := Slot(ptr), m.book[i];
    var node := NodeOf(m.book[s], ptr);
    assert BucketOk(m, i);
    if i == s {
      BucketShrinks(b, i, m.w.live, m.large, First(b.chain, ptr));
    } else {
      assert NodesApart(m.book[s], b);
      forall j | 0 <= j < |b.chain|
        ensures b.chain[j].node in m.w.live - {node} && m.w.live[b.chain[j].node] == ENTRY
        ensures b.chain[j].lptr != b.lptr ==>
                  b.chain[j].lptr in m.large - {ptr} && m.large[b.chain[j].lptr] == b.chain[j].len
      {
        assert EntryOk(b, i, m.w.live, m.large, j);
      }
      BucketStays(b, i, m.w.live, m.large, m.w.live - {node}, m.large - {ptr});
    }
  }

  lemma {:induction false} TakenOut(chain: seq<Entry>, k: nat, lptr: nat)
    requires k < |chain| && chain[k].lptr != lptr && First(chain, lptr) < |chain|
    ensures First(chain[..k] + chain[k + 1..], lptr) < |chain| - 1
  {
    var j := First(chain, lptr);
    FirstFinds(chain[..k] + chain[k + 1..], lptr, if j < k then j else j - 1);
  }

  lemma GiveRecorded(m: Memory, ptr: nat, p: nat)
    requires BookInv(m) && ptr in m.large && m.book[Slot(ptr)].lptr != ptr && p in m.large && p != ptr
    ensures Recorded(Eaten(m.book, ptr)[Slot(p)], p)
  {
    var b := m.book[Slot(p)];
    if Slot(p) == Slot(ptr) && b.lptr != p {
      TakenOut(b.chain, First(b.chain, ptr), p);
    }
  }

  lemma GiveChain(m: Memory, ptr: nat)
    requires MemoryInv(m) && CanCall(m, Give(ptr)) && m.book[Slot(ptr)].lptr != ptr
    ensures MemoryInv(GiveStep(m, ptr))
  {
    var m' := GiveStep(m, ptr);
    StepInv(m.w, Release(NodeOf(m.book[Slot(ptr)], ptr)));
    forall i | 0 <= i < BUCKETS ensures BucketOk(m', i) {
      GiveChainBucket(m, ptr, i);
    }
    forall i, j | 0 <= i < BUCKETS && 0 <= j < BUCKETS && i != j ensures NodesApart(m'.book[i], m'.book[j]) {
      GiveApart(m.book, ptr, i, j);
    }
    forall p | p in m'.large ensures p > 0 && Recorded(m'.book[Slot(p)], p) {
      GiveRecorded(m, ptr, p);
    }
  }

  // The entries left are those of before.
  lemma GiveApart(book: seq<Bucket>, ptr: nat, i: nat, j: nat)
    requires |book| == BUCKETS && Recorded(book[Slot(ptr)], ptr) && i < BUCKETS && j < BUCKETS
    requires NodesApart(book[i], book[j])
    ensures NodesApart(Eaten(book, ptr)[i], Eaten(book, ptr)[j])
  {
  }

  /** Every call answered with pages not in use keeps both sides: the book's entries lie in
      live small blocks of their own, and every live large block is on record. */
  lemma CallKeeps(m: Memory, c: Call)
    requires MemoryInv(m) && CanCall(m, c) && AnsweredFresh(m, c)
    ensures MemoryInv(CallStep(m, c))
  {
    match c
    case Small(e) => SmallKeeps(m, e);
    case Take(len, at, base) =>
      if Chained(m.book, at) {
        TakeChain(m, len, at, base);
      } else {
        TakeHead(m, len, at, base);
      }
    case Give(ptr) =>
      if m.book[Slot(ptr)].lptr == ptr {
        GiveHead(m, ptr);
      } else {
        GiveChain(m, ptr);
      }
  }

  ghost predicate LegalCalls(m: Memory, cs: seq<Call>)
    decreases |cs|
  {
    cs == [] || (CanCall(m, cs[0]) && LegalCalls(CallStep(m, cs[0]), cs[1..]))
  }

  ghost function RunCalls(m: Memory, cs: seq<Call>): Memory
    requires LegalCalls(m, cs)
    decreases |cs|
  {
    if cs == [] then m else RunCalls(CallStep(m, cs[0]), cs[1..])
  }

  lemma UnusedInv()
    ensures MemoryInv(Unused())
  {
    forall i | 0 <= i < BUCKETS ensures BucketOk(Unused(), i) {
      assert Unused().book[i] == Bucket(0, 0, []);
    }
  }

  // Every large block has the length its client's request is rounded to.
  ghost predicate Honest(m: Memory) {
    && m.asked.Keys == m.large.Keys
    && forall p :: p in m.asked ==> LARGEST < m.asked[p] < WORD && m.large[p] == Rounded(m.asked[p])
  }

  lemma {:induction false} RunHonest(m: Memory, cs: seq<Call>)
    requires LegalCalls(m, cs) && Honest(m)
    ensures Honest(RunCalls(m, cs))
    decreases |cs|
  {
    if cs != [] {
      RunHonest(CallStep(m, cs[0]), cs[1..]);
    }
  }

  // ---- the length a large block is given back with ----

  datatype Head = Head(lptr: nat, len: nat)

  // What the first large block of a slot was, in a run; lptr 0 if there was none.
  function FirstTaken(cs: seq<Call>, i: nat): Head
    decreases |cs|
  {
    if cs == [] then Head(0, 0)
    else if cs[0].Take? && Slot(cs[0].at) == i then Head(cs[0].at, Rounded(cs[0].len))
    else FirstTaken(cs[1..], i)
  }

  // A head entry once used is never changed: freeing leaves it and inserting chains behind it.
  lemma {:induction false} HeadForever(m: Memory, cs: seq<Call>, i: nat)
    requires LegalCalls(m, cs) && i < BUCKETS && |m.book| == BUCKETS
    ensures |RunCalls(m, cs).book| == BUCKETS
    ensures var b := RunCalls(m, cs).book[i];
            m.book[i].lptr != 0 ==> b.lptr == m.book[i].lptr && b.len == m.book[i].len
    ensures var b := RunCalls(m, cs).book[i];
            m.book[i].lptr == 0 && m.book[i].len == 0 ==> Head(b.lptr, b.len) == FirstTaken(cs, i)
    decreases |cs|
  {
    if cs != [] {
      HeadForever(CallStep(m, cs[0]), cs[1..], i);
    }
  }

  /** The length on record for a live block is its own, unless the head of its slot has its
      address with another length. */
  lemma LengthIs(m: Memory, p: nat)
    requires MemoryInv(m) && p in m.large
    ensures LengthOf(m.book[Slot(p)], p) == if m.book[Slot(p)].lptr == p then m.book[Slot(p)].len else m.large[p]
  {
    var b := m.book[Slot(p)];
    if b.lptr != p {
      assert BucketOk(m, Slot(p)) && EntryOk(b, Slot(p), m.w.live, m.large, First(b.chain, p));
    }
  }
}
