/** The availability word of a subpool: one bit a slot, 32-bit words. The word is an
    integer below 2^32 and its bit operations are written out by halving. */
module PoolBits {

  const SLOTS: nat := 32

  type Flags = w: nat | w < 0x1_0000_0000
  type Position = b: nat | b < SLOTS

  const ALL_FREE: Flags := 0xFFFF_FFFF  // ~0UL

  function Pow2(n: nat): (p: nat)
    ensures p > 0
  {
    if n == 0 then 1 else 2 * Pow2(n - 1)
  }

  lemma Pow2Four(n: nat)
    ensures Pow2(n + 4) == 16 * Pow2(n)
  {
    assert Pow2(n + 2) == 2 * Pow2(n + 1);
    assert Pow2(n + 4) == 2 * Pow2(n + 3);
  }

  lemma WordSize()
    ensures Pow2(SLOTS) == 0x1_0000_0000
  {
    Pow2Four(0);
    Pow2Four(4);
    Pow2Four(8);
    Pow2Four(12);
    Pow2Four(16);
    Pow2Four(20);
    Pow2Four(24);
    Pow2Four(28);
  }

  // w >> b
  function Shift(w: nat, b: nat): nat {
    if b == 0 then w else Shift(w, b - 1) / 2
  }

  predicate Free(w: nat, b: nat) { Shift(w, b) % 2 == 1 }

  lemma {:induction false} ShiftBound(w: nat, b: nat, n: nat)
    requires b <= n && w < Pow2(n)
    ensures Shift(w, b) < Pow2(n - b)
  {
    if b > 0 {
      ShiftBound(w, b - 1, n);
    }
  }

  function HighestSet(w: nat, from: nat): (b: nat)
    requires w > 0 && Shift(w, from) <= 1
    ensures b <= from && Shift(w, b) == 1
    decreases from
  {
    if Shift(w, from) == 1 then from else HighestSet(w, from - 1)
  }

  lemma WordHasTop(w: Flags)
    ensures Shift(w, SLOTS - 1) <= 1
  {
    WordSize();
    ShiftBound(w, SLOTS - 1, SLOTS);
    assert Pow2(1) == 2;
  }

  /** The bit allocate picks: 32 less the leading zeros less one, the highest bit set. */
  function TopBit(w: Flags): (b: Position)
    requires w != 0
    ensures Free(w, b) && Shift(w, b) == 1
  {
    WordHasTop(w);
    HighestSet(w, SLOTS - 1)
  }

  // w & ~(1 << b)
  function Clear(w: Flags, b: Position): Flags {
    if Free(w, b) && Pow2(b) <= w then w - Pow2(b) else w
  }

  lemma {:induction false} FreeIsLarge(w: nat, b: nat)
    ensures Shift(w, b) * Pow2(b) <= w
  {
    if b > 0 {
      FreeIsLarge(w, b - 1);
      var s := Shift(w, b - 1);
      assert 2 * (s / 2) <= s;
      ScaleLe(2 * (s / 2), s, Pow2(b - 1));
    }
  }

  lemma ScaleLe(x: nat, y: nat, p: nat)
    requires x <= y
    ensures x * p <= y * p
  {
  }

  // Below b, taking 2^b off the word takes an even number off what is shifted down.
  lemma {:induction false} ShiftBelow(w: nat, b: nat, i: nat)
    requires i <= b && Pow2(b) <= w
    ensures Shift(w - Pow2(b), i) == Shift(w, i) - Pow2(b - i)
  {
    if i > 0 {
      ShiftBelow(w, b, i - 1);
      assert Pow2(b - (i - 1)) == 2 * Pow2(b - i);
      HalfMinus(Shift(w, i - 1), Pow2(b - i));
    }
  }

  lemma HalfMinus(x: int, y: int)
    ensures (x - 2 * y) / 2 == x / 2 - y
  {
  }

  lemma {:induction false} ShiftAbove(w: nat, b: nat, i: nat)
    requires i > b && Pow2(b) <= w && Free(w, b)
    ensures Shift(w - Pow2(b), i) == Shift(w, i)
  {
    if i == b + 1 {
      ShiftBelow(w, b, b);
    } else {
      ShiftAbove(w, b, i - 1);
    }
  }

  lemma ClearOne(w: Flags, b: Position, i: Position)
    ensures Free(Clear(w, b), i) <==> Free(w, i) && i != b
  {
    if Free(w, b) {
      FreeIsLarge(w, b);
      assert Shift(w, b) >= 1;
      ScaleLe(1, Shift(w, b), Pow2(b));
      if i <= b {
        ShiftBelow(w, b, i);
        assert i < b ==> Pow2(b - i) == 2 * Pow2(b - i - 1);
      } else {
        ShiftAbove(w, b, i);
      }
    }
  }

  lemma {:induction false} ShiftAllOnes(n: nat, b: nat)
    requires b <= n
    ensures Shift(Pow2(n) - 1, b) == Pow2(n - b) - 1
  {
    if b > 0 {
      ShiftAllOnes(n, b - 1);
    }
  }

  lemma AllFree(b: Position)
    ensures Free(ALL_FREE, b)
  {
    WordSize();
    ShiftAllOnes(SLOTS, b);
  }
}
