/** Single bits of machine words, over the value of the word. */
module Bits {
  import opened Shifts

  /** Bit `i` of the word. */
  predicate Bit(w: nat, i: nat)
  {
    Shr(w, i) % 2 == 1
  }

  /** `w | (1 << i)` */
  function SetBit(w: nat, i: nat): (r: nat)
  {
    if Bit(w, i) then w else w + Pow2(i)
  }

  /** `w & ~(1 << i)` */
  function ClearBit(w: nat, i: nat): (r: nat)
  {
    if Bit(w, i) then BitFits(w, i); w - Pow2(i) else w
  }

  /** `w ^ (1 << i)` */
  function FlipBit(w: nat, i: nat): (r: nat)
  {
    if Bit(w, i) then ClearBit(w, i) else SetBit(w, i)
  }

  /** `w & (~0 << s)` */
  function MaskFrom(w: nat, s: nat): (r: nat)
  {
    Shl(Shr(w, s), s)
  }

  /** Index of the lowest set bit: `__builtin_ffs(w) - 1`. */
  function Ffs(w: nat): (k: nat)
    requires w > 0
  {
    if w % 2 == 1 then 0 else 1 + Ffs(w / 2)
  }

  lemma {:induction false} BitFits(w: nat, i: nat)
    requires Bit(w, i)
    ensures Pow2(i) <= w
  {
    if i > 0 {
      BitFits(w / 2, i - 1);
    }
  }

  lemma {:induction false} SetBitSpec(w: nat, i: nat, j: nat)
    ensures Bit(SetBit(w, i), j) <==> j == i || Bit(w, j)
  {
    if i > 0 && j > 0 {
      SetBitSpec(w / 2, i - 1, j - 1);
      assert SetBit(w, i) / 2 == SetBit(w / 2, i - 1);
    }
  }

  lemma {:induction false} ClearBitSpec(w: nat, i: nat, j: nat)
    ensures Bit(ClearBit(w, i), j) <==> j != i && Bit(w, j)
  {
    if i > 0 && j > 0 {
      ClearBitSpec(w / 2, i - 1, j - 1);
      assert ClearBit(w, i) / 2 == ClearBit(w / 2, i - 1);
    }
  }

  lemma {:induction false} MaskFromSpec(w: nat, s: nat, j: nat)
    ensures Bit(MaskFrom(w, s), j) <==> s <= j && Bit(w, j)
  {
    if s > 0 {
      if j > 0 {
        MaskFromSpec(w / 2, s - 1, j - 1);
        assert MaskFrom(w, s) == 2 * MaskFrom(w / 2, s - 1);
      } else {
        assert MaskFrom(w, s) == 2 * MaskFrom(w / 2, s - 1);
      }
    }
  }

  /** The lowest set bit is set and nothing below it is. */
  lemma {:induction false} FfsSpec(w: nat)
    requires w > 0
    ensures Bit(w, Ffs(w))
    ensures forall j: nat :: j < Ffs(w) ==> !Bit(w, j)
  {
    if w % 2 == 0 {
      FfsSpec(w / 2);
      forall j: nat | j < Ffs(w)
        ensures !Bit(w, j)
      {
        if j > 0 {
          assert !Bit(w / 2, j - 1);
        }
      }
    }
  }

  /** A word of n bits is zero exactly when none of them is set. */
  lemma {:induction false} ZeroIffNoBit(w: nat, n: nat)
    requires w < Pow2(n)
    ensures w == 0 <==> forall j: nat :: j < n ==> !Bit(w, j)
  {
    if w == 0 {
      forall j: nat | j < n ensures !Bit(w, j) { ShrZero(j); }
    } else {
      FfsSpec(w);
      FfsBelow(w, n);
    }
  }

  lemma {:induction false} ShrZero(k: nat)
    ensures Shr(0, k) == 0
  {
  }

  /** `tlsf_ffs`: the lowest set bit, or -1 for a word without one. */
  function LowestBit(w: nat): int { if w == 0 then -1 else Ffs(w) }

  lemma {:induction false} LowestBitSpec(w: nat)
    ensures LowestBit(w) == -1 <==> forall j: nat :: !Bit(w, j)
    ensures LowestBit(w) >= 0 ==> Bit(w, LowestBit(w)) && forall j: nat :: j < LowestBit(w) ==> !Bit(w, j)
  {
    if w > 0 {
      FfsSpec(w);
    } else {
      forall j: nat ensures !Bit(0, j) {
        NoBits(j);
      }
    }
  }

  lemma {:induction false} NoBits(j: nat)
    ensures !Bit(0, j)
  {
    if j > 0 {
      NoBits(j - 1);
    }
  }

  lemma {:induction false} FfsBelow(w: nat, n: nat)
    requires 0 < w < Pow2(n)
    ensures Ffs(w) < n
  {
    if w % 2 == 0 {
      FfsBelow(w / 2, n - 1);
    }
  }

  lemma {:induction false} SetBitBelow(w: nat, i: nat, n: nat)
    requires w < Pow2(n) && i < n
    ensures SetBit(w, i) < Pow2(n)
  {
    if i > 0 {
      SetBitBelow(w / 2, i - 1, n - 1);
      assert SetBit(w, i) / 2 == SetBit(w / 2, i - 1);
    }
  }

  /** Words with the same bits are equal. */
  lemma {:induction false} BitsDetermine(v: nat, w: nat)
    requires forall j: nat :: Bit(v, j) <==> Bit(w, j)
    ensures v == w
  {
    if v > 0 || w > 0 {
      assert Bit(v, 0) <==> Bit(w, 0);
      forall j: nat ensures Bit(v / 2, j) <==> Bit(w / 2, j) {
        assert Bit(v, j + 1) <==> Bit(w, j + 1);
      }
      BitsDetermine(v / 2, w / 2);
    }
  }

  /** Every bit of a full byte is set. */
  lemma {:induction false} AllOnes(j: nat)
    requires j < 8
    ensures Bit(255, j)
  {
    assert Shr(255, 0) == 255 && Shr(255, 1) == Shr(127, 0) && Shr(255, 2) == Shr(127, 1) == Shr(63, 0);
    assert Shr(255, 3) == Shr(127, 2) == Shr(63, 1) == Shr(31, 0);
    assert Shr(255, 4) == Shr(127, 3) == Shr(63, 2) == Shr(31, 1) == Shr(15, 0);
    assert Shr(255, 5) == Shr(127, 4) == Shr(63, 3) == Shr(31, 2) == Shr(15, 1) == Shr(7, 0);
    assert Shr(255, 6) == Shr(127, 5) == Shr(63, 4) == Shr(31, 3) == Shr(15, 2) == Shr(7, 1) == Shr(3, 0);
    assert Shr(255, 7) == Shr(127, 6) == Shr(63, 5) == Shr(31, 4) == Shr(15, 3) == Shr(7, 2) == Shr(3, 1) == Shr(1, 0);
  }
}
