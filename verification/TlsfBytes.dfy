/** Bytes of a word-addressed memory, and copying them. */
module TlsfBytes {
  import opened TlsfState

  /** Byte i of a word, least significant first. */
  function Byte(w: int, i: nat): (r: int)
    decreases i
  {
    if i == 0 then w % 256 else Byte(w / 256, i - 1)
  }

  /** The word whose first n bytes are those of `src` and whose other bytes are those of
      `dst`. */
  function Mix(dst: int, src: int, n: nat): (r: int)
    decreases n
  {
    if n == 0 then dst else src % 256 + 256 * Mix(dst / 256, src / 256, n - 1)
  }

  lemma {:induction false} MixBytes(dst: int, src: int, n: nat, i: nat)
    ensures Byte(Mix(dst, src, n), i) == if i < n then Byte(src, i) else Byte(dst, i)
    decreases n
  {
    if n > 0 {
      var r := Mix(dst / 256, src / 256, n - 1);
      assert Mix(dst, src, n) == src % 256 + 256 * r;
      MixDigit(src % 256, r);
      if i > 0 {
        MixBytes(dst / 256, src / 256, n - 1, i - 1);
      }
    }
  }

  lemma {:induction false} MixDigit(d: int, r: int)
    requires 0 <= d < 256
    ensures (d + 256 * r) % 256 == d && (d + 256 * r) / 256 == r
  {
  }

  /** Byte i of the buffer at the word-aligned address p. */
  function ByteAt(m: Mem, p: int, i: nat): (r: int)
  {
    Byte(m[p + (i - i % 8)], i % 8)
  }

  /** The n bytes at p are those that were at q. */
  ghost predicate BytesMoved(m: Mem, m': Mem, q: int, p: int, n: nat)
  {
    forall i: nat {:trigger ByteAt(m', p, i)} :: i < n ==> ByteAt(m', p, i) == ByteAt(m, q, i)
  }

  lemma {:induction false} SameWordsBytes(m: Mem, m': Mem, p: int, n: nat)
    requires forall a {:trigger m'[a]} :: p <= a < p + n ==> m'[a] == m[a]
    ensures BytesMoved(m, m', p, p, n)
  {
  }

  /** `memcpy` between word-aligned buffers: whole words, then the first bytes of the last
      word. */
  function CopyWords(m: Mem, dst: int, src: int, words: nat): (r: Mem)
  {
    if words == 0 then m
    else
      var r := CopyWords(m, dst, src, words - 1);
      r[dst + 8 * (words - 1) := m[src + 8 * (words - 1)]]
  }

  function Memcpy(m: Mem, dst: int, src: int, n: nat): (r: Mem)
  {
    var words, rest := n / 8, n % 8;
    var r := CopyWords(m, dst, src, words);
    if rest == 0 then r
    else r[dst + 8 * words := Mix(m[dst + 8 * words], m[src + 8 * words], rest)]
  }

  lemma {:induction false} CopyWordsSpec(m: Mem, dst: int, src: int, words: nat)
    ensures forall a {:trigger CopyWords(m, dst, src, words)[a]} :: a < dst || dst + 8 * words - 8 < a ==>
      CopyWords(m, dst, src, words)[a] == m[a]
    ensures forall j: nat {:trigger WordAt(CopyWords(m, dst, src, words), dst, j)} :: j < words ==>
      WordAt(CopyWords(m, dst, src, words), dst, j) == m[src + 8 * j]
  {
    if words > 0 {
      CopyWordsSpec(m, dst, src, words - 1);
      var r0, r := CopyWords(m, dst, src, words - 1), CopyWords(m, dst, src, words);
      forall j: nat {:trigger WordAt(r, dst, j)} | j < words ensures WordAt(r, dst, j) == m[src + 8 * j] {
        if j < words - 1 {
          assert WordAt(r0, dst, j) == m[src + 8 * j];
        }
      }
    }
  }

  function WordAt(m: Mem, p: int, j: nat): int { m[p + 8 * j] }

  /** The copy moves exactly the first n bytes and touches only the words that hold them. */
  lemma {:induction false} MemcpySpec(m: Mem, dst: int, src: int, n: nat, r: Mem)
    requires r == Memcpy(m, dst, src, n)
    ensures BytesMoved(m, r, src, dst, n)
    ensures forall a {:trigger r[a]} :: a < dst || dst + 8 * ((n + 7) / 8) - 8 < a ==> r[a] == m[a]
  {
    var words, rest := n / 8, n % 8;
    CopyWordsSpec(m, dst, src, words);
    forall i: nat {:trigger ByteAt(r, dst, i)} | i < n ensures ByteAt(r, dst, i) == ByteAt(m, src, i) {
      MemcpyByte(m, dst, src, n, r, i);
    }
  }

  lemma {:induction false} MemcpyByte(m: Mem, dst: int, src: int, n: nat, r: Mem, i: nat)
    requires r == Memcpy(m, dst, src, n) && i < n
    ensures ByteAt(r, dst, i) == ByteAt(m, src, i)
  {
    var words, rest, j := n / 8, n % 8, i / 8;
    var c := CopyWords(m, dst, src, words);
    CopyWordsSpec(m, dst, src, words);
    assert i - i % 8 == 8 * j;
    if j < words {
      assert WordAt(c, dst, j) == m[src + 8 * j];
    } else {
      assert j == words && i % 8 < rest;
      MixBytes(m[dst + 8 * words], m[src + 8 * words], rest, i % 8);
    }
  }
}
