/** The segmented queue: a chain of fixed-size segments, filled at the tail, drained and
    released at the head. It refines a plain sequence. */
module Fifo {

  const ELEMENTS_PER_SEGMENT: nat := 61

  class FifoSegment {
    var index: nat
    var count: nat
    var next: FifoSegment?
    const elements: array<nat>
    ghost var rank: nat  // numbers the segments of a queue in order of allocation

    // Memory comes zeroed from the allocator.
    constructor (ghost rank: nat)
      ensures index == 0 && count == 0 && next == null && this.rank == rank
      ensures elements.Length == ELEMENTS_PER_SEGMENT && fresh(elements)
    {
      index, count, next := 0, 0, null;
      elements := new nat[ELEMENTS_PER_SEGMENT](_ => 0);
      this.rank := rank;
    }
  }

  class Queue {
    var length: nat
    var head: FifoSegment?
    var tail: FifoSegment?
    ghost var spine: seq<FifoSegment>  // head to tail
    ghost var freed: seq<FifoSegment>  // every segment given back so far, in order
    ghost var contents: seq<nat>

    ghost function Segments(): set<FifoSegment>
      reads this
    {
      set s | s in spine
    }

    ghost function Cells(): set<array<nat>>
      reads this
    {
      set s | s in spine :: s.elements
    }

    // All segments but the last are full; only the first has been read from; the chain
    // ends at the tail; each cell written and not yet read holds its element.
    ghost predicate SegmentOk(i: nat)
      requires i < |spine|
      reads this, spine, Cells()
    {
      var s := spine[i];
      && s.rank == |freed| + i
      && s.elements.Length == ELEMENTS_PER_SEGMENT
      && s.index <= s.count <= ELEMENTS_PER_SEGMENT
      && 0 < s.count && s.index < ELEMENTS_PER_SEGMENT
      && (i > 0 ==> s.index == 0)
      && (i < |spine| - 1 ==> s.count == ELEMENTS_PER_SEGMENT)
      && s.next == (if i < |spine| - 1 then spine[i + 1] else null)
      && forall c :: s.index <= c < s.count ==>
           && 0 <= ELEMENTS_PER_SEGMENT * i + c - spine[0].index < |contents|
           && s.elements[c] == contents[ELEMENTS_PER_SEGMENT * i + c - spine[0].index]
    }

    ghost predicate Valid()
      reads this, spine, freed, Cells()
    {
      && (spine == [] ==> head == null && tail == null)
      && (spine != [] ==> head == spine[0] && tail == spine[|spine| - 1])
      && (forall i :: 0 <= i < |spine| ==> SegmentOk(i))
      && (forall i, j :: 0 <= i < j < |spine| ==> spine[i].elements != spine[j].elements)
      && (forall i :: 0 <= i < |freed| ==> freed[i].rank == i)
      && length == |contents|
      && length == (if spine == [] then 0
                    else ELEMENTS_PER_SEGMENT * (|spine| - 1) + tail.count - head.index)
    }

    constructor ()
      ensures Valid() && contents == [] && spine == [] && freed == []
    {
      length, head, tail, spine, freed, contents := 0, null, null, [], [], [];
    }

    function Length(): (n: nat)
      requires Valid()
      reads this, spine, freed, Cells()
      ensures n == |contents|
    {
      length
    }

    method Enqueue(val: nat)
      requires Valid()
      modifies this, Segments(), Cells()
      ensures Valid() && contents == old(contents) + [val] && freed == old(freed)
      ensures old(spine) <= spine && forall i :: |old(spine)| <= i < |spine| ==>
                fresh(spine[i]) && fresh(spine[i].elements)
    {
      if head == null {
        StartSpine(val);
      } else if tail.count == ELEMENTS_PER_SEGMENT {
        ExtendSpine(val);
      } else {
        assert SegmentOk(|spine| - 1);
        FillTail(val);
      }
    }

    // A new last segment holding one element.
    method NewSegment(ghost rank: nat, val: nat) returns (seg: FifoSegment)
      ensures fresh(seg) && fresh(seg.elements) && seg.elements.Length == ELEMENTS_PER_SEGMENT
      ensures seg.index == 0 && seg.count == 1 && seg.next == null && seg.rank == rank
      ensures seg.elements[0] == val
    {
      seg := new FifoSegment(rank);
      seg.count := 1;
      seg.elements[0] := val;
    }

    method StartSpine(val: nat)
      requires Valid() && head == null
      modifies this
      ensures Valid() && contents == old(contents) + [val] && freed == old(freed)
      ensures |spine| == 1 && fresh(spine[0]) && fresh(spine[0].elements)
    {
      head := NewSegment(|freed|, val);
      tail := head;
      spine := [head];
      length := length + 1;
      contents := contents + [val];
    }

    method ExtendSpine(val: nat)
      requires Valid() && head != null && tail.count == ELEMENTS_PER_SEGMENT
      modifies this, tail`next
      ensures Valid() && contents == old(contents) + [val] && freed == old(freed)
      ensures |spine| == |old(spine)| + 1 && old(spine) <= spine
      ensures fresh(spine[|spine| - 1]) && fresh(spine[|spine| - 1].elements)
    {
      assert SegmentOk(|spine| - 1);
      var seg := NewSegment(|freed| + |spine|, val);
      assert Cells() == old(Cells());
      forall i | 0 <= i < |spine| ensures SegmentOk(i) {
        assert old(SegmentOk(i)) && spine[i].elements in Cells();
      }
      LinkTail(seg, val);
    }

    method LinkTail(seg: FifoSegment, val: nat)
      requires Valid() && head != null && tail.count == ELEMENTS_PER_SEGMENT
      requires seg !in spine && seg !in freed && seg.elements !in Cells()
      requires seg.elements.Length == ELEMENTS_PER_SEGMENT && seg.elements[0] == val
      requires seg.index == 0 && seg.count == 1 && seg.next == null && seg.rank == |freed| + |spine|
      modifies this, tail`next
      ensures Valid() && contents == old(contents) + [val] && freed == old(freed)
      ensures spine == old(spine) + [seg]
    {
      ghost var n := |spine|;
      assert SegmentOk(n - 1) && SegmentOk(0);
      Attach(seg, val);
      forall i | 0 <= i < n ensures SegmentOk(i) {
        assert old(SegmentOk(i));
      }
      assert SegmentOk(n);
    }

    method Attach(seg: FifoSegment, val: nat)
      requires tail != null
      modifies this`tail, this`spine, this`length, this`contents, tail`next
      ensures old(tail).next == seg && tail == seg && spine == old(spine) + [seg]
      ensures length == old(length) + 1 && contents == old(contents) + [val]
    {
      tail.next := seg;
      tail := seg;
      spine := spine + [seg];
      length := length + 1;
      contents := contents + [val];
    }

    method FillTail(val: nat)
      requires Valid() && head != null && tail.count < ELEMENTS_PER_SEGMENT
      modifies this, tail`count, tail.elements
      ensures Valid() && contents == old(contents) + [val] && freed == old(freed)
      ensures spine == old(spine)
    {
      ghost var n := |spine| - 1;
      assert SegmentOk(n) && SegmentOk(0);
      Put(val);
      forall i | 0 <= i < n ensures SegmentOk(i) {
        assert old(SegmentOk(i));
      }
      assert SegmentOk(n);
    }

    method Put(val: nat)
      requires tail != null && tail.count < tail.elements.Length
      modifies this`length, this`contents, tail`count, tail.elements
      ensures tail.elements[..] == old(tail.elements[..])[old(tail.count) := val]
      ensures tail.count == old(tail.count) + 1
      ensures length == old(length) + 1 && contents == old(contents) + [val]
    {
      tail.elements[tail.count] := val;
      tail.count := tail.count + 1;
      length := length + 1;
      contents := contents + [val];
    }

    method Dequeue() returns (val: nat)
      requires Valid()
      modifies this, Segments()
      ensures Valid()
      ensures old(contents) == [] ==> val == 0 && unchanged(this)
      ensures old(contents) != [] ==> val == old(contents)[0] && contents == old(contents)[1..]
      ensures (spine == old(spine) && freed == old(freed))
           || (old(spine) != [] && spine == old(spine)[1..] && freed == old(freed) + [old(spine)[0]])
    {
      if length == 0 {
        return 0;
      }
      assert SegmentOk(0) && SegmentOk(|spine| - 1);
      if head.index + 1 == ELEMENTS_PER_SEGMENT {
        val := DrainHead();
      } else {
        val := ReadHead();
      }
    }

    // Reads a cell of a segment that still has more to give.
    method ReadHead() returns (val: nat)
      requires Valid() && length != 0 && head.index + 1 < ELEMENTS_PER_SEGMENT
      modifies this, head`index
      ensures Valid() && val == old(contents)[0] && contents == old(contents)[1..]
      ensures spine == old(spine) && freed == old(freed)
    {
      assert SegmentOk(0) && SegmentOk(|spine| - 1);
      assert head.index < head.count;  // the cell was written
      val := head.elements[head.index];
      head.index := head.index + 1;
      length := length - 1;
      contents := contents[1..];
      forall i | 0 <= i < |spine| ensures SegmentOk(i) {
        assert old(SegmentOk(i));
      }
    }

    // Reads the last cell of a segment and gives the segment back.
    method DrainHead() returns (val: nat)
      requires Valid() && length != 0 && head.index + 1 == ELEMENTS_PER_SEGMENT
      modifies this, head`index
      ensures Valid() && val == old(contents)[0] && contents == old(contents)[1..]
      ensures spine == old(spine)[1..] && freed == old(freed) + [old(spine)[0]]
    {
      assert SegmentOk(0) && SegmentOk(|spine| - 1);
      if |spine| > 1 { assert SegmentOk(1); }
      assert head.index < head.count;  // the cell was written
      val := head.elements[head.index];
      head.index := head.index + 1;
      freed := freed + [head];
      spine := spine[1..];
      head := head.next;
      if head == null {
        tail := null;
      }
      length := length - 1;
      contents := contents[1..];
      forall i | 0 <= i < |spine| ensures SegmentOk(i) {
        assert old(SegmentOk(i + 1)) && spine[i] == old(spine)[i + 1];
      }
    }

    // What the first k segments still hold.
    ghost function Unread(k: nat): int
      requires k <= |spine|
      reads this, spine
    {
      if k == 0 then 0 else Unread(k - 1) + spine[k - 1].count - spine[k - 1].index
    }

    lemma {:induction false} UnreadPrefix(k: nat)
      requires Valid() && 0 < k <= |spine|
      ensures Unread(k) == ELEMENTS_PER_SEGMENT * (k - 1) + spine[k - 1].count - spine[0].index
    {
      assert SegmentOk(k - 1);
      if k > 1 {
        assert SegmentOk(k - 2);
        UnreadPrefix(k - 1);
      }
    }

    /** The length kept by the queue is the sum over its segments of what each still holds,
        and the number of its elements. */
    lemma LengthIsSum()
      requires Valid()
      ensures length == Unread(|spine|) == |contents|
    {
      if spine != [] {
        UnreadPrefix(|spine|);
      }
    }

    static ghost predicate Linked(all: seq<FifoSegment>, i: nat)
      requires i < |all|
      reads all[i]
    {
      all[i].next == if i < |all| - 1 then all[i + 1] else null
    }

    lemma SpineLinks()
      requires Valid()
      ensures forall i :: 0 <= i < |spine| ==> Linked(spine, i)
      ensures forall i :: 0 <= i < |freed + spine| ==> (freed + spine)[i].rank == i
    {
      forall i | 0 <= i < |spine| ensures spine[i].rank == |freed| + i && Linked(spine, i) {
        assert SegmentOk(i);
      }
    }

    // Gives back every segment still in the chain.
    method ReleaseChain()
      requires head == if spine == [] then null else spine[0]
      requires forall i :: 0 <= i < |spine| ==> Linked(spine, i)
      modifies this`head, this`spine, this`freed
      ensures head == null && spine == [] && freed == old(freed) + old(spine)
    {
      ghost var released: seq<FifoSegment> := [];
      while head != null
        invariant |released| <= |spine| && released == spine[..|released|]
        invariant head == (if |released| < |spine| then spine[|released|] else null)
        decreases |spine| - |released|
        modifies this`head
      {
        assert old(Linked(spine, |released|));
        var seg := head;
        head := head.next;
        released := released + [seg];
      }
      spine, freed := [], freed + released;
    }

    /** With the segments released by Dequeue, each segment ever allocated is given back
        exactly once: their ranks are 0, 1, 2, ... */
    method Free()
      requires Valid()
      modifies this
      ensures head == null && spine == []
      ensures freed == old(freed) + old(spine)
      ensures forall i :: 0 <= i < |freed| ==> freed[i].rank == i
    {
      SpineLinks();
      ReleaseChain();
    }
  }
}
