/** Shifts of unbounded machine numbers, and the position of the highest set bit. */
module Shifts {

  /** `x << k` */
  function Shl(x: nat, k: nat): (r: nat)
    ensures r >= x
  {
    if k == 0 then x else 2 * Shl(x, k - 1)
  }

  /** `x >> k` */
  function Shr(x: nat, k: nat): (r: nat)
    ensures r <= x
  {
    if k == 0 then x else Shr(x / 2, k - 1)
  }

  function Pow2(k: nat): (r: nat)
    ensures r >= 1
  {
    Shl(1, k)
  }

  lemma {:induction false} ShlMonotone(a: nat, b: nat, k: nat)
    requires a <= b
    ensures Shl(a, k) <= Shl(b, k)
    ensures a < b ==> Shl(a, k) + Pow2(k) <= Shl(b, k)
  {
    if k > 0 {
      ShlMonotone(a, b, k - 1);
    }
  }

  lemma {:induction false} ShlPlus(a: nat, b: nat, k: nat)
    ensures Shl(a + b, k) == Shl(a, k) + Shl(b, k)
  {
    if k > 0 {
      ShlPlus(a, b, k - 1);
    }
  }

  /** Shifting twice is shifting by the sum. */
  lemma {:induction false} ShlShl(x: nat, i: nat, j: nat)
    ensures Shl(Shl(x, i), j) == Shl(x, i + j)
  {
    if j > 0 {
      ShlShl(x, i, j - 1);
    }
  }

  lemma {:induction false} ShlDouble(x: nat, k: nat)
    ensures Shl(2 * x, k) == Shl(x, k + 1)
  {
    ShlPlus(x, x, k);
  }

  lemma {:induction false} ShlZero(k: nat)
    ensures Shl(0, k) == 0
  {
    if k > 0 {
      ShlZero(k - 1);
    }
  }

  lemma {:induction false} Pow2Monotone(a: nat, b: nat)
    requires a <= b
    ensures Pow2(a) <= Pow2(b)
    ensures a < b ==> 2 * Pow2(a) <= Pow2(b)
  {
    if a < b {
      Pow2Monotone(a, b - 1);
    }
  }

  lemma {:induction false} Pow2Values()
    ensures Pow2(3) == 8 && Pow2(5) == 32 && Pow2(8) == 256
    ensures Pow2(12) == 4096
    ensures Pow2(32) == 0x1_0000_0000
    ensures Pow2(62) == 0x4000_0000_0000_0000
    ensures Pow2(63) == 0x8000_0000_0000_0000
    ensures Pow2(64) == 0x1_0000_0000_0000_0000
  {
    assert Pow2(4) == 16;
    assert Pow2(8) == 256;
    assert Pow2(12) == 4096;
    assert Pow2(16) == 65536;
    assert Pow2(20) == 0x10_0000;
    assert Pow2(24) == 0x100_0000;
    assert Pow2(28) == 0x1000_0000;
    assert Pow2(32) == 0x1_0000_0000;
    assert Pow2(36) == 0x10_0000_0000;
    assert Pow2(40) == 0x100_0000_0000;
    assert Pow2(44) == 0x1000_0000_0000;
    assert Pow2(48) == 0x1_0000_0000_0000;
    assert Pow2(52) == 0x10_0000_0000_0000;
    assert Pow2(56) == 0x100_0000_0000_0000;
    assert Pow2(60) == 0x1000_0000_0000_0000;
  }

  /** A right shift undone by a left shift loses less than one unit. */
  lemma {:induction false} ShrShl(x: nat, k: nat)
    ensures Shl(Shr(x, k), k) <= x < Shl(Shr(x, k) + 1, k)
  {
    if k > 0 {
      ShrShl(x / 2, k - 1);
    }
  }

  /** Shifts add up. */
  lemma {:induction false} ShrShr(x: nat, a: nat, b: nat)
    ensures Shr(Shr(x, a), b) == Shr(x, a + b)
  {
    if a > 0 {
      ShrShr(x / 2, a - 1, b);
    }
  }

  /** `x >> k` is the only q with q << k <= x < (q + 1) << k. */
  lemma {:induction false} ShrUnique(x: nat, k: nat, q: nat)
    requires Shl(q, k) <= x < Shl(q + 1, k)
    ensures Shr(x, k) == q
  {
    ShrShl(x, k);
    if Shr(x, k) < q {
      ShlMonotone(Shr(x, k) + 1, q, k);
    } else if q < Shr(x, k) {
      ShlMonotone(q + 1, Shr(x, k), k);
    }
  }

  lemma {:induction false} ShrOfShl(q: nat, k: nat)
    ensures Shr(Shl(q, k), k) == q
  {
    ShlMonotone(q, q + 1, k);
    ShrUnique(Shl(q, k), k, q);
  }

  lemma {:induction false} ShrMonotone(x: nat, y: nat, k: nat)
    requires x <= y
    ensures Shr(x, k) <= Shr(y, k)
  {
    if k > 0 {
      ShrMonotone(x / 2, y / 2, k - 1);
    }
  }

  lemma {:induction false} ShrBounds(x: nat, k: nat, lo: nat, hi: nat)
    requires Shl(lo, k) <= x < Shl(hi, k)
    ensures lo <= Shr(x, k) < hi
  {
    ShrShl(x, k);
    if Shr(x, k) < lo {
      ShlMonotone(Shr(x, k) + 1, lo, k);
    } else if hi <= Shr(x, k) {
      ShlMonotone(hi, Shr(x, k), k);
    }
  }

  /** The first exponent from k on whose successor power exceeds n. */
  function FlsFrom(n: nat, k: nat): (r: nat)
    requires Pow2(k) <= n
    ensures k <= r && Pow2(r) <= n < Pow2(r + 1)
    decreases n - Pow2(k)
  {
    if n < Pow2(k + 1) then k else FlsFrom(n, k + 1)
  }

  /** Index of the highest set bit of a non-zero word. */
  function Fls(n: nat): (k: nat)
    requires n > 0
    ensures Pow2(k) <= n < Pow2(k + 1)
  {
    FlsFrom(n, 0)
  }

  /** The highest set bit is the only exponent that brackets the number. */
  lemma {:induction false} FlsUnique(n: nat, k: nat)
    requires n > 0
    requires Pow2(k) <= n < Pow2(k + 1)
    ensures Fls(n) == k
  {
    if Fls(n) < k {
      Pow2Monotone(Fls(n) + 1, k);
    } else if k < Fls(n) {
      Pow2Monotone(k + 1, Fls(n));
    }
  }

  lemma {:induction false} FlsAtLeast(n: nat, k: nat)
    requires n > 0 && Pow2(k) <= n
    ensures k <= Fls(n)
  {
    if Fls(n) < k {
      Pow2Monotone(Fls(n) + 1, k);
    }
  }

  lemma {:induction false} FlsBelow(n: nat, k: nat)
    requires n > 0 && n < Pow2(k)
    ensures Fls(n) < k
  {
    if k <= Fls(n) {
      Pow2Monotone(k, Fls(n));
    }
  }
}
