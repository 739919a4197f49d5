/** Bytes and little-endian numbers. */
module LittleEndian {

  type Byte = x: nat | x < 256

  function LeGet(s: seq<Byte>): nat
  {
    if s == [] then 0 else s[0] + 256 * LeGet(s[1..])
  }

  function LePut(v: nat, n: nat): (s: seq<Byte>)
    ensures |s| == n
  {
    if n == 0 then [] else [v % 256] + LePut(v / 256, n - 1)
  }

  /** The number fits in n bytes. */
  predicate FitsIn(v: nat, n: nat)
  {
    if n == 0 then v == 0 else FitsIn(v / 256, n - 1)
  }

  lemma {:induction false} LeRoundTrip(v: nat, n: nat)
    requires FitsIn(v, n)
    ensures LeGet(LePut(v, n)) == v
  {
    if n > 0 {
      LeRoundTrip(v / 256, n - 1);
      assert LePut(v, n)[1..] == LePut(v / 256, n - 1);
    }
  }

  lemma {:induction false} FitsFour(v: nat)
    requires v < 0x1_0000_0000
    ensures FitsIn(v, 4)
  {
    assert v / 256 < 0x100_0000 && v / 256 / 256 < 0x1_0000 && v / 256 / 256 / 256 < 256;
    assert FitsIn(v / 256 / 256 / 256 / 256, 0);
    assert FitsIn(v / 256 / 256 / 256, 1);
    assert FitsIn(v / 256 / 256, 2);
    assert FitsIn(v / 256, 3);
  }

  lemma {:induction false} FitsEight(v: nat)
    requires v < 0x1_0000_0000_0000_0000
    ensures FitsIn(v, 8)
  {
    var w := v / 256 / 256 / 256 / 256;
    assert w < 0x1_0000_0000;
    FitsFour(w);
    assert FitsIn(v / 256 / 256 / 256, 5);
    assert FitsIn(v / 256 / 256, 6);
    assert FitsIn(v / 256, 7);
  }

  /** The first byte counts least. */
  lemma {:induction false} LeFour(a: Byte, b: Byte, c: Byte, d: Byte)
    ensures LeGet([a, b, c, d]) == a + 0x100 * b + 0x1_0000 * c + 0x100_0000 * d
  {
    assert [a, b, c, d][1..] == [b, c, d] && [b, c, d][1..] == [c, d] && [c, d][1..] == [d] && [d][1..] == [];
    assert LeGet([d]) == d && LeGet([c, d]) == c + 256 * d;
    assert LeGet([b, c, d]) == b + 256 * LeGet([c, d]);
  }
}
