/** What the checksum of an entry set is, in bits and in an example. */
module ExfatChecksum {
  import opened Shifts
  import opened LittleEndian
  import opened ExfatVolume
  import opened ExfatFile

  /** The checksum after k zero bytes. */
  function Turned(sum: nat, k: nat): nat
  {
    if k == 0 then sum else Mix(Turned(sum, k - 1), 0)
  }

  lemma {:induction false} ZeroRun(s: seq<Byte>, n: nat, k: nat)
    requires 4 <= n && n + k <= |s| && forall i :: n <= i < n + k ==> s[i] == 0
    ensures SetChecksum(s, n + k) == Turned(SetChecksum(s, n), k)
  {
    if k > 0 {
      ZeroRun(s, n, k - 1);
    }
  }

  /** The entry set of a new file named A has the checksum 0x0D66. */
  lemma {:induction false} KnownSum(s: seq<Byte>)
    requires s == FILE_ENTRY + ([0xC0, 1, 0, 1] + seq(28, i => 0)) + NameEntry([0x41])
    ensures |s| == 96 && SetChecksum(s, 96) == 0x0D66
  {
    KnownBytes(s);
    hide Mix, SetChecksum, NameEntry;
    KnownFirst(s);
    ZeroRun(s, 5, 27);
    KnownTurns();
    KnownStep(s, 32, 0xC0);
    KnownStep(s, 33, 1);
    KnownStep(s, 34, 0);
    KnownStep(s, 35, 1);
    ZeroRun(s, 36, 28);
    KnownStep(s, 64, 0xC1);
    KnownStep(s, 65, 0);
    KnownStep(s, 66, 0x41);
    ZeroRun(s, 67, 29);
    KnownMixes();
  }

  lemma {:induction false} KnownBytes(s: seq<Byte>)
    requires s == FILE_ENTRY + ([0xC0, 1, 0, 1] + seq(28, i => 0)) + NameEntry([0x41])
    ensures |s| == 96 && s[0] == 0x85 && s[1] == 2 && s[4] == 0x20 && (forall i :: 5 <= i < 32 ==> s[i] == 0)
    ensures s[32] == 0xC0 && s[33] == 1 && s[34] == 0 && s[35] == 1 && (forall i :: 36 <= i < 64 ==> s[i] == 0)
    ensures s[64] == 0xC1 && s[65] == 0 && s[66] == 0x41 && (forall i :: 67 <= i < 96 ==> s[i] == 0)
  {
  }

  lemma {:induction false} KnownFirst(s: seq<Byte>)
    requires |s| >= 5 && s[0] == 0x85 && s[1] == 2 && s[4] == 0x20
    ensures SetChecksum(s, 5) == 0x4042
  {
    assert SetChecksum(s, 1) == Mix(0, 0x85) == 0x85;
    assert SetChecksum(s, 2) == 0x8044;
    assert SetChecksum(s, 4) == SetChecksum(s, 3) == 0x8044;
  }

  lemma {:induction false} KnownStep(s: seq<Byte>, n: nat, b: Byte)
    requires 4 <= n < |s| && s[n] == b
    ensures SetChecksum(s, n + 1) == Mix(SetChecksum(s, n), b)
  {
  }

  /** Up to sixteen zero bytes turn the word: its lower k bits come to the top. */
  lemma {:induction false} TurnedIs(x: nat, k: nat, q: nat, r: nat)
    requires k <= 16 && r < Pow2(k) && q < Pow2(16 - k) && x == Shl(q, k) + r
    ensures Turned(x, k) == q + Shl(r, 16 - k) < 0x1_0000
    decreases k
  {
    hide Mix, Shl, Pow2;
    Sixteen();
    if k == 0 {
      ShlNothing(q, r);
    } else {
      var b := if r >= Pow2(k - 1) then 1 else 0;
      HalfWord(k, q, r, b);
      TurnedIs(x, k - 1, 2 * q + b, r - b * Pow2(k - 1));
      TurnedMore(k, q, r - b * Pow2(k - 1), b);
    }
  }

  lemma {:induction false} ShlNothing(q: nat, r: nat)
    requires r < Pow2(0)
    ensures Shl(q, 0) == q && r == 0 && Shl(r, 16) == 0
  {
    ShlZero(16);
  }

  lemma {:induction false} HalfWord(k: nat, q: nat, r: nat, b: nat)
    requires 0 < k <= 16 && r < Pow2(k) && q < Pow2(16 - k) && b == if r >= Pow2(k - 1) then 1 else 0
    ensures Shl(2 * q + b, k - 1) + (r - b * Pow2(k - 1)) == Shl(q, k) + r
    ensures 0 <= r - b * Pow2(k - 1) < Pow2(k - 1) && 2 * q + b < Pow2(17 - k)
  {
    ShlPlus(2 * q, b, k - 1);
    ShlDouble(q, k - 1);
    if b == 1 {
      assert Shl(1, k - 1) == Pow2(k - 1);
    } else {
      ShlZero(k - 1);
    }
  }

  lemma {:induction false} TurnedMore(k: nat, q: nat, r: nat, b: nat)
    requires 0 < k <= 16 && b <= 1 && r < Pow2(k - 1) && q < Pow2(16 - k)
    ensures Mix(2 * q + b + Shl(r, 17 - k), 0) == q + Shl(r + b * Pow2(k - 1), 16 - k) < 0x1_0000
  {
    hide Mix, Shl, Pow2;
    Sixteen();
    var half := Shl(r, 16 - k);
    assert Shl(r, 17 - k) == 2 * half by { ShlDouble(r, 16 - k); ShlPlus(r, r, 16 - k); }
    assert Shl(Pow2(k - 1), 16 - k) == 0x8000 by { Pow2Is(k - 1); ShlShl(1, k - 1, 16 - k); }
    ShlMonotone(r, Pow2(k - 1), 16 - k);
    if b == 1 {
      ShlPlus(r, Pow2(k - 1), 16 - k);
    }
    TurnOnce(q, half, b);
  }

  lemma {:induction false} Pow2Is(k: nat)
    ensures Pow2(k) == Shl(1, k)
  {
  }

  lemma {:induction false} TurnOnce(q: nat, half: nat, b: nat)
    requires b <= 1 && q + half < 0x8000
    ensures Mix(2 * q + b + 2 * half, 0) == q + half + b * 0x8000
  {
    var y := 2 * q + b + 2 * half;
    assert y % 2 == b && y / 2 == q + half;
  }

  lemma {:induction false} TurnedTwice(x: nat, i: nat, j: nat)
    ensures Turned(x, i + j) == Turned(Turned(x, i), j)
  {
    hide Mix;
    if j > 0 {
      TurnedTwice(x, i, j - 1);
    }
  }

  /** More than sixteen zero bytes turn it on. */
  lemma {:induction false} TurnedOn(x: nat, k: nat, q: nat, r: nat)
    requires k <= 16 && r < Pow2(k) && q < Pow2(16 - k) && x == Shl(q, k) + r && x < 0x1_0000
    ensures Turned(x, 16 + k) == q + Shl(r, 16 - k)
  {
    hide Mix, Pow2, Turned;
    Sixteen();
    ShlZero(16);
    TurnedIs(x, 16, 0, x);
    TurnedIs(x, k, q, r);
    TurnedTwice(x, 16, k);
  }

  lemma {:induction false} Sixteen()
    ensures Pow2(16) == 0x1_0000 && Pow2(15) == 0x8000 && Shl(1, 15) == 0x8000 && Pow2(0) == 1
  {
    assert Pow2(8) == 256 && Pow2(7) == 128;
    ShlShl(1, 8, 8);
    ShlShl(1, 8, 7);
    Times256(8);
    Times256(7);
  }

  lemma {:induction false} Times256(k: nat)
    ensures Shl(256, k) == 256 * Pow2(k)
  {
    if k > 0 {
      Times256(k - 1);
    }
  }

  lemma {:induction false} KnownTurns()
    ensures Turned(0x4042, 27) == 0x848 && Turned(0xC09D, 28) == 0x9DC && Turned(0xC1AC, 29) == 0xD66
  {
    hide Turned, Shl, Pow2;
    KnownShifts();
    KnownPowers();
    TurnedOn(0x4042, 11, 8, 0x42);
    TurnedOn(0xC09D, 12, 12, 0x9D);
    TurnedOn(0xC1AC, 13, 6, 0x1AC);
  }

  lemma {:induction false} KnownShifts()
    ensures Shl(8, 11) == 0x4000 && Shl(0x42, 5) == 0x840 && Shl(12, 12) == 0xC000 && Shl(0x9D, 4) == 0x9D0
    ensures Shl(6, 13) == 0xC000 && Shl(0x1AC, 3) == 0xD60
  {
    assert Shl(8, 3) == 64 && Shl(64, 4) == 0x400;
    ShlShl(8, 3, 4);
    ShlShl(8, 7, 4);
    assert Shl(12, 4) == 0xC0 && Shl(0xC0, 4) == 0xC00;
    ShlShl(12, 4, 4);
    ShlShl(12, 8, 4);
    ShlDouble(6, 12);
  }

  lemma {:induction false} KnownPowers()
    ensures Pow2(3) == 8 && Pow2(4) == 16 && Pow2(5) == 32 && Pow2(11) == 0x800 && Pow2(12) == 0x1000
    ensures Pow2(13) == 0x2000
  {
    assert Shl(1, 4) == 16 && Shl(16, 4) == 0x100;
    ShlShl(1, 4, 4);
    ShlShl(1, 8, 3);
    ShlShl(1, 8, 4);
  }

  lemma {:induction false} KnownMixes()
    ensures Mix(0x848, 0xC0) == 0x4e4 && Mix(0x4e4, 1) == 0x273 && Mix(0x273, 0) == 0x8139 && Mix(0x8139, 1) == 0xc09d
    ensures Mix(0x9dc, 0xC1) == 0x5af && Mix(0x5af, 0) == 0x82d7 && Mix(0x82d7, 0x41) == 0xc1ac
  {
  }
}
