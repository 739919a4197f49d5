/** The operations on block headers and the physical chain. */
module TlsfPhys {
  import opened TlsfMap
  import opened TlsfState

  /** `block_next`, read from memory. */
  function NextAt(m: Mem, b: int): (r: int) { b + 8 + SizeOf(m[b + 8]) }

  /** `block_link_next` */
  function LinkNext(m: Mem, b: int): (r: Mem) { m[NextAt(m, b) := b] }

  /** `block_set_prev_free` and `block_set_prev_used` */
  function SetPrevFree(m: Mem, b: int): (r: Mem) { m[b + 8 := WithPrevFree(m[b + 8])] }
  function SetPrevUsed(m: Mem, b: int): (r: Mem) { m[b + 8 := WithPrevUsed(m[b + 8])] }
  function SetFree(m: Mem, b: int): (r: Mem) { m[b + 8 := WithFree(m[b + 8])] }
  function SetUsed(m: Mem, b: int): (r: Mem) { m[b + 8 := WithUsed(m[b + 8])] }
  function SetSize(m: Mem, b: int, s: int): (r: Mem) { m[b + 8 := WithSize(m[b + 8], s)] }

  /** `block_mark_as_free` */
  function MarkFree(m: Mem, b: int): (r: Mem)
  {
    SetFree(SetPrevFree(LinkNext(m, b), NextAt(m, b)), b)
  }

  /** `block_mark_as_used` */
  function MarkUsed(m: Mem, b: int): (r: Mem)
  {
    SetUsed(SetPrevUsed(m, NextAt(m, b)), b)
  }

  ghost predicate Used(k: Blocks, u: int)
  {
    u in k.size && u !in k.free && k.size[u] > 0
  }

  /** Apart from `x` the used blocks are the same ones, with the same sizes and the same
      payloads, including the word each shares with the next header. */
  ghost predicate Kept(m: Mem, k: Blocks, m': Mem, k': Blocks, x: int)
  {
    && (forall u {:trigger Used(k, u)} {:trigger Used(k', u)} :: u != x ==> (Used(k, u) <==> Used(k', u)))
    && (forall u :: Used(k, u) && u != x ==> k'.size[u] == k.size[u])
    && (forall u, a {:trigger Used(k, u), m'[a]} :: Used(k, u) && u != x && u + 16 <= a < u + 16 + k.size[u] ==>
          m'[a] == m[a])
  }

  lemma {:induction false} KeptTrans(m0: Mem, k0: Blocks, m1: Mem, k1: Blocks, m2: Mem, k2: Blocks, x: int)
    requires Kept(m0, k0, m1, k1, x) && Kept(m1, k1, m2, k2, x)
    ensures Kept(m0, k0, m2, k2, x)
  {
    forall u, a {:trigger Used(k0, u), m2[a]} | Used(k0, u) && u != x && u + 16 <= a < u + 16 + k0.size[u]
      ensures m2[a] == m0[a]
    {
      assert Used(k1, u);
      assert m1[a] == m0[a];
    }
  }

  // ----- what a header operation can reach -----

  /** The two memories differ only between the size word of the block at `lo` and the
      header of the block at `hi`. */
  ghost predicate Within(m: Mem, m': Mem, lo: int, hi: int)
  {
    forall a {:trigger m'[a]} :: a < lo + 8 || (hi < a && a != hi + 8) ==> m'[a] == m[a]
  }

  lemma {:induction false} WithinKept(m: Mem, k: Blocks, m': Mem, k': Blocks, first: int, last: int, lo: int, hi: int,
      x: int)
    requires Tiles(k.size, first, last) && lo in k.size && hi in k.size
    requires Within(m, m', lo, hi)
    requires forall u {:trigger Used(k, u)} {:trigger Used(k', u)} :: u != x ==> (Used(k, u) <==> Used(k', u))
    requires forall u :: Used(k, u) && u != x ==> u in k'.size && k'.size[u] == k.size[u] && (u < lo || u >= hi)
    ensures Kept(m, k, m', k', x)
  {
    forall u, a {:trigger Used(k, u), m'[a]} | Used(k, u) && u != x && u + 16 <= a < u + 16 + k.size[u]
      ensures m'[a] == m[a]
    {
      assert u < lo ==> u + 8 + k.size[u] <= lo;
    }
  }

  lemma {:induction false} WithinLinks(m: Mem, m': Mem, k: Blocks, node: map<int, Node>, tab: seq<int>, base: int,
                                       first: int, last: int, lo: int, hi: int)
    requires Tiles(k.size, first, last) && lo in k.size && hi in k.size
    requires Within(m, m', lo, hi)
    requires first == base + 6528 && |tab| == LISTS && Links(m, node, tab, base)
    requires forall d :: d in node ==> d in k.size && d != last && (d < lo || d >= hi)
    ensures Links(m', node, tab, base)
  {
    forall d | d in node
      ensures m'[d + 16] == node[d].next && m'[d + 24] == node[d].prev
    {
      assert d < lo ==> d + 8 + k.size[d] <= lo;
    }
  }

  // ----- block_mark_as_free -----

  function MarkFreeB(k: Blocks, b: int): (r: Blocks)
    requires b in k.size
  {
    k.(free := k.free + {b}, prevFree := k.prevFree + {Next(k.size, b)})
  }

  lemma {:induction false} MarkFreeMem(m: Mem, k: Blocks, b: int, n: int)
    requires b in k.size && n in k.size && n == Next(k.size, b)
    requires m[b + 8] == Header(k, b) && m[n + 8] == Header(k, n)
    requires AlignedBlock(k.size, b) && AlignedBlock(k.size, n) && k.size[b] > 0
    ensures MarkFree(m, b) ==
            m[n := b][n + 8 := Header(MarkFreeB(k, b), n)][b + 8 := Header(MarkFreeB(k, b), b)]
  {
    PackParts(k.size[b], b in k.free, b in k.prevFree);
    PackParts(k.size[n], n in k.free, n in k.prevFree);
  }

  lemma {:induction false} MarkFreeHeaders(m: Mem, k: Blocks, first: int, last: int, b: int, n: int, k': Blocks,
      m': Mem)
    requires Tiles(k.size, first, last) && Headers(m, k)
    requires b in k.size && b != last && b !in k.free && n == Next(k.size, b) && n in k.size
    requires k' == MarkFreeB(k, b)
    requires m' == m[n := b][n + 8 := Header(k', n)][b + 8 := Header(k', b)]
    ensures Headers(m', k')
  {
  }

  lemma {:induction false} MarkFreeBack(m: Mem, k: Blocks, first: int, last: int, b: int, n: int, k': Blocks, m': Mem)
    requires Tiles(k.size, first, last) && BackLinks(m, k, last, NOWHERE) && Flags(k, first, last, NOWHERE)
    requires b in k.size && b != last && b !in k.free && n == Next(k.size, b) && n in k.size
    requires k' == MarkFreeB(k, b)
    requires m' == m[n := b][n + 8 := Header(k', n)][b + 8 := Header(k', b)]
    ensures BackLinks(m', k', last, NOWHERE)
  {
    forall c {:trigger PrevPhys(m', c)} | c in k'.prevFree
      ensures var p := PrevPhys(m', c); p in k'.size && p != last && p in k'.free && p + 8 + k'.size[p] == c
    {
      if c != n {
        assert PrevPhys(m', c) == PrevPhys(m, c);
      }
    }
  }

  lemma {:induction false} MarkFreeFlags(k: Blocks, first: int, last: int, b: int, n: int)
    requires Tiles(k.size, first, last) && Flags(k, first, last, NOWHERE)
    requires b in k.size && b != last && n == Next(k.size, b) && n in k.size
    ensures Flags(MarkFreeB(k, b), first, last, NOWHERE)
  {
  }

  /** Marking a used block free keeps the chain true and touches nobody else's bytes. */
  lemma {:induction false} MarkFreeChain(m: Mem, k: Blocks, first: int, last: int, b: int)
    requires Chain(m, k, first, last, NOWHERE)
    requires b in k.size && b != last && b !in k.free
    ensures Chain(MarkFree(m, b), MarkFreeB(k, b), first, last, NOWHERE)
    ensures Next(k.size, b) in k.size
    ensures Within(m, MarkFree(m, b), b, Next(k.size, b))
    ensures Kept(m, k, MarkFree(m, b), MarkFreeB(k, b), b)
  {
    var n := Next(k.size, b);
    assert n in k.size;
    var m', k' := MarkFree(m, b), MarkFreeB(k, b);
    assert AlignedBlock(k.size, b) && AlignedBlock(k.size, n);
    MarkFreeMem(m, k, b, n);
    MarkFreeHeaders(m, k, first, last, b, n, k', m');
    MarkFreeBack(m, k, first, last, b, n, k', m');
    MarkFreeFlags(k, first, last, b, n);
    WithinKept(m, k, m', k', first, last, b, n, b);
  }

  // ----- block_mark_as_used -----

  function MarkUsedB(k: Blocks, b: int): (r: Blocks)
    requires b in k.size
  {
    k.(free := k.free - {b}, prevFree := k.prevFree - {Next(k.size, b)})
  }

  lemma {:induction false} MarkUsedMem(m: Mem, k: Blocks, b: int, n: int)
    requires b in k.size && n in k.size && n == Next(k.size, b)
    requires m[b + 8] == Header(k, b) && m[n + 8] == Header(k, n)
    requires AlignedBlock(k.size, b) && AlignedBlock(k.size, n) && k.size[b] > 0
    ensures MarkUsed(m, b) == m[n + 8 := Header(MarkUsedB(k, b), n)][b + 8 := Header(MarkUsedB(k, b), b)]
  {
    PackParts(k.size[b], b in k.free, b in k.prevFree);
    PackParts(k.size[n], n in k.free, n in k.prevFree);
  }

  lemma {:induction false} MarkUsedHeaders(m: Mem, k: Blocks, first: int, last: int, b: int, n: int, k': Blocks,
      m': Mem)
    requires Tiles(k.size, first, last) && Headers(m, k)
    requires b in k.size && b != last && n == Next(k.size, b) && n in k.size
    requires k' == MarkUsedB(k, b)
    requires m' == m[n + 8 := Header(k', n)][b + 8 := Header(k', b)]
    ensures Headers(m', k')
  {
  }

  lemma {:induction false} MarkUsedBack(m: Mem, k: Blocks, first: int, last: int, b: int, n: int, k': Blocks, m': Mem,
      stale: int)
    requires Tiles(k.size, first, last) && BackLinks(m, k, last, stale) && Flags(k, first, last, stale)
    requires b in k.size && b != last && n == Next(k.size, b) && n in k.size
    requires stale == NOWHERE || stale == n
    requires k' == MarkUsedB(k, b)
    requires m' == m[n + 8 := Header(k', n)][b + 8 := Header(k', b)]
    ensures BackLinks(m', k', last, NOWHERE)
  {
    forall c {:trigger PrevPhys(m', c)} | c in k'.prevFree
      ensures var p := PrevPhys(m', c); p in k'.size && p != last && p in k'.free && p + 8 + k'.size[p] == c
    {
      assert PrevPhys(m', c) == PrevPhys(m, c);
    }
  }

  lemma {:induction false} MarkUsedFlags(k: Blocks, first: int, last: int, b: int, n: int, stale: int)
    requires Tiles(k.size, first, last) && Flags(k, first, last, stale)
    requires b in k.size && b != last && n == Next(k.size, b) && n in k.size
    requires stale == NOWHERE || stale == n
    ensures Flags(MarkUsedB(k, b), first, last, NOWHERE)
  {
  }

  /** Marking a block used makes the successor's flag true again as well. */
  lemma {:induction false} MarkUsedChain(m: Mem, k: Blocks, first: int, last: int, b: int, stale: int)
    requires Chain(m, k, first, last, stale)
    requires b in k.size && b != last && (stale == NOWHERE || stale == Next(k.size, b))
    ensures Chain(MarkUsed(m, b), MarkUsedB(k, b), first, last, NOWHERE)
    ensures Next(k.size, b) in k.size
    ensures Within(m, MarkUsed(m, b), b, Next(k.size, b))
    ensures forall a :: b + 16 <= a < Next(k.size, b) + 8 ==> MarkUsed(m, b)[a] == m[a]
    ensures Kept(m, k, MarkUsed(m, b), MarkUsedB(k, b), b)
  {
    var n := Next(k.size, b);
    assert n in k.size;
    var m', k' := MarkUsed(m, b), MarkUsedB(k, b);
    assert AlignedBlock(k.size, b) && AlignedBlock(k.size, n);
    MarkUsedMem(m, k, b, n);
    MarkUsedHeaders(m, k, first, last, b, n, k', m');
    MarkUsedBack(m, k, first, last, b, n, k', m', stale);
    MarkUsedFlags(k, first, last, b, n, stale);
    WithinKept(m, k, m', k', first, last, b, n, b);
  }

  // ----- block_split -----

  /** `block_split`: cut `s` payload bytes off the front of block b. The flag bits of the
      new header are whatever the payload word there happened to hold. */
  function Split(m: Mem, b: int, s: int): (r: Mem)
  {
    var rest := b + 8 + s;
    var remain := SizeOf(m[b + 8]) - (s + 8);
    MarkFree(SetSize(SetSize(m, rest, remain), b, s), rest)
  }

  function SplitB(k: Blocks, b: int, s: int, garbage: bool): (r: Blocks)
    requires b in k.size
  {
    var rest, n := b + 8 + s, Next(k.size, b);
    Blocks(k.size[b := s][rest := k.size[b] - s - 8],
           k.free + {rest},
           k.prevFree + {n} + (if garbage then {rest} else {}))
  }

  ghost predicate CanCut(k: Blocks, last: int, b: int, s: int)
  {
    b in k.size && b != last && 24 <= s && s + 32 <= k.size[b]
  }

  /** Two neighbours in order, after a split. */
  lemma {:induction false} SplitOrder(size: map<int, int>, first: int, last: int, b: int, s: int, size': map<int,
      int>, c: int, d: int)
    requires Tiles(size, first, last) && b in size && b != last && 24 <= s && s + 32 <= size[b]
    requires size' == size[b := s][b + 8 + s := size[b] - s - 8] && c in size' && d in size' && c < d
    ensures c + 8 + size'[c] <= d
  {
    var rest := b + 8 + s;
    if c != b && c != rest {
      assert c in size;
      if d == rest {
        assert c < b;
      } else {
        assert d in size;
      }
    } else if d != rest {
      assert d in size && b < d;
    }
  }

  lemma {:induction false} SplitTiles(k: Blocks, first: int, last: int, b: int, s: int, g: bool)
    requires Tiles(k.size, first, last) && CanCut(k, last, b, s)
    ensures Tiles(SplitB(k, b, s, g).size, first, last)
  {
    var size, size' := k.size, SplitB(k, b, s, g).size;
    forall c, d {:trigger c in size', d in size'} | c in size' && d in size' && c < d ensures c + 8 + size'[c] <= d {
      SplitOrder(size, first, last, b, s, size', c, d);
    }
    forall c {:trigger Next(size', c)} | c in size' && c != last ensures Next(size', c) in size' {
      SplitNext(size, first, last, b, s, size', c);
    }
  }

  lemma {:induction false} SplitNext(size: map<int, int>, first: int, last: int, b: int, s: int, size': map<int, int>,
      c: int)
    requires Tiles(size, first, last) && b in size && b != last && 24 <= s && s + 32 <= size[b]
    requires size' == size[b := s][b + 8 + s := size[b] - s - 8] && c in size' && c != last
    ensures Next(size', c) in size'
  {
    if c != b && c != b + 8 + s {
      assert Next(size', c) == Next(size, c);
    } else {
      assert Next(size, b) in size;
    }
  }

  lemma {:induction false} SplitSizes(m: Mem, k: Blocks, b: int, s: int, rest: int, k': Blocks, m2: Mem)
    requires b in k.size && rest == b + 8 + s && rest !in k.size && rest !in k.prevFree
    requires m[b + 8] == Header(k, b) && AlignedBlock(k.size, b)
    requires s % 8 == 0 && 24 <= s && s + 32 <= k.size[b]
    requires k' == SplitB(k, b, s, PrevFreeBit(m[rest + 8]))
    requires m2 == SetSize(SetSize(m, rest, SizeOf(m[b + 8]) - (s + 8)), b, s)
    ensures m2[b + 8] == Header(k', b) && SizeOf(m2[rest + 8]) == k'.size[rest]
    ensures WithFree(m2[rest + 8]) == Header(k', rest)
    ensures forall a :: a != b + 8 && a != rest + 8 ==> m2[a] == m[a]
  {
    var remain, w := k.size[b] - s - 8, m[rest + 8];
    PackParts(k.size[b], b in k.free, b in k.prevFree);
    PackGarbage(w, remain);
    PackParts(remain, FreeBit(w), PrevFreeBit(w));
    assert m2[rest + 8] == WithSize(w, remain);
  }

  lemma {:induction false} SplitMem(m: Mem, k: Blocks, b: int, s: int, rest: int, n: int, k': Blocks)
    requires b in k.size && n in k.size && n == Next(k.size, b) && rest == b + 8 + s && rest !in k.size
    requires rest !in k.prevFree
    requires m[b + 8] == Header(k, b) && m[n + 8] == Header(k, n)
    requires AlignedBlock(k.size, b) && AlignedBlock(k.size, n) && s % 8 == 0 && 24 <= s && s + 32 <= k.size[b]
    requires k' == SplitB(k, b, s, PrevFreeBit(m[rest + 8]))
    ensures Split(m, b, s) == m[n := rest][n + 8 := Header(k', n)][rest + 8 := Header(k', rest)][b + 8 := Header(k', b)]
  {
    var m2 := SetSize(SetSize(m, rest, SizeOf(m[b + 8]) - (s + 8)), b, s);
    SplitSizes(m, k, b, s, rest, k', m2);
    PackParts(k.size[n], n in k.free, n in k.prevFree);
    MarkFreeAt(m2, rest, n);
  }

  lemma {:induction false} MarkFreeAt(m: Mem, b: int, n: int)
    requires n == NextAt(m, b) && n != b && n != b + 8
    ensures MarkFree(m, b) == m[n := b][n + 8 := WithPrevFree(m[n + 8])][b + 8 := WithFree(m[b + 8])]
  {
  }

  lemma {:induction false} SplitAligned(k: Blocks, b: int, s: int, g: bool)
    requires WordAligned(k.size) && b in k.size && s % 8 == 0
    ensures WordAligned(SplitB(k, b, s, g).size)
  {
    var k' := SplitB(k, b, s, g);
    forall c {:trigger AlignedBlock(k'.size, c)} | c in k'.size ensures AlignedBlock(k'.size, c) {
      assert AlignedBlock(k.size, b);
      if c in k.size {
        assert AlignedBlock(k.size, c);
      }
    }
  }

  lemma {:induction false} SplitHeaders(m: Mem, k: Blocks, first: int, last: int, b: int, s: int, rest: int, n: int,
      k': Blocks, m': Mem, g: bool)
    requires Tiles(k.size, first, last) && Headers(m, k) && CanCut(k, last, b, s)
    requires n == Next(k.size, b) && rest == b + 8 + s && rest !in k.size && n in k.size
    requires k' == SplitB(k, b, s, g)
    requires m' == m[n := rest][n + 8 := Header(k', n)][rest + 8 := Header(k', rest)][b + 8 := Header(k', b)]
    ensures Headers(m', k')
  {
    forall c | c in k'.size ensures m'[c + 8] == Header(k', c) {
      if c != b && c != rest && c != n {
        assert c in k.size;
        assert m'[c + 8] == m[c + 8];
      }
    }
  }

  lemma {:induction false} SplitBack(m: Mem, k: Blocks, first: int, last: int, b: int, s: int, rest: int, n: int,
      k': Blocks, m': Mem, g: bool)
    requires Tiles(k.size, first, last) && CanCut(k, last, b, s)
    requires BackLinks(m, k, last, NOWHERE) && Flags(k, first, last, NOWHERE)
    requires n == Next(k.size, b) && rest == b + 8 + s && rest !in k.size && n in k.size
    requires k' == SplitB(k, b, s, g)
    requires m' == m[n := rest][n + 8 := Header(k', n)][rest + 8 := Header(k', rest)][b + 8 := Header(k', b)]
    ensures BackLinks(m', k', last, rest)
  {
    forall c {:trigger PrevPhys(m', c)} | c in k'.prevFree && c != rest
      ensures var p := PrevPhys(m', c); p in k'.size && p != last && p in k'.free && p + 8 + k'.size[p] == c
    {
      if c != n {
        assert c in k.prevFree && c in k.size;
        assert PrevPhys(m', c) == PrevPhys(m, c);
        assert PrevPhys(m, c) != b;
      }
    }
  }

  lemma {:induction false} SplitFlags(k: Blocks, first: int, last: int, b: int, s: int, rest: int, n: int, g: bool,
      k': Blocks)
    requires Tiles(k.size, first, last) && CanCut(k, last, b, s) && Flags(k, first, last, NOWHERE)
    requires n == Next(k.size, b) && rest == b + 8 + s && rest !in k.size && n in k.size
    requires k' == SplitB(k, b, s, g)
    ensures Flags(k', first, last, rest)
  {
    forall c {:trigger Next(k'.size, c)} | c in k'.size && c != last && Next(k'.size, c) != rest
      ensures Next(k'.size, c) in k'.prevFree <==> c in k'.free
    {
      if c != rest {
        assert c != b;
        assert c in k.size && Next(k'.size, c) == Next(k.size, c);
        assert Next(k.size, c) != n;
      }
    }
  }

  lemma {:induction false} SplitWithin(m: Mem, m': Mem, b: int, rest: int, n: int, x: int, y: int, z: int)
    requires b + 32 <= rest && rest + 32 <= n
    requires m' == m[n := rest][n + 8 := x][rest + 8 := y][b + 8 := z]
    ensures Within(m, m', b, n)
    ensures forall a :: b + 16 <= a < rest + 8 ==> m'[a] == m[a]
  {
  }

  lemma {:induction false} SplitKept(m: Mem, k: Blocks, first: int, last: int, b: int, s: int, m': Mem, k': Blocks,
      g: bool)
    requires Tiles(k.size, first, last) && CanCut(k, last, b, s) && Next(k.size, b) in k.size
    requires b + 8 + s !in k.size
    requires k' == SplitB(k, b, s, g) && Within(m, m', b, Next(k.size, b))
    ensures Kept(m, k, m', k', b)
  {
    WithinKept(m, k, m', k', first, last, b, Next(k.size, b), b);
  }

  /** After a split the chain is true except for the previous-free bit of the new block,
      which the caller is about to set. */
  lemma {:induction false} SplitChain(m: Mem, k: Blocks, first: int, last: int, b: int, s: int, k': Blocks)
    requires Chain(m, k, first, last, NOWHERE) && CanCut(k, last, b, s) && s % 8 == 0
    requires k' == SplitB(k, b, s, PrevFreeBit(m[b + 8 + s + 8]))
    ensures Chain(Split(m, b, s), k', first, last, b + 8 + s)
    ensures Next(k.size, b) in k.size && b + 8 + s !in k.size
    ensures Within(m, Split(m, b, s), b, Next(k.size, b))
    ensures forall a :: b + 16 <= a < b + 16 + s ==> Split(m, b, s)[a] == m[a]
    ensures Kept(m, k, Split(m, b, s), k', b)
  {
    var n, rest, g := Next(k.size, b), b + 8 + s, PrevFreeBit(m[b + 8 + s + 8]);
    assert n in k.size;
    assert rest !in k.size;
    assert AlignedBlock(k.size, b) && AlignedBlock(k.size, n);
    var m' := Split(m, b, s);
    SplitMem(m, k, b, s, rest, n, k');
    SplitAligned(k, b, s, g);
    SplitTiles(k, first, last, b, s, g);
    SplitHeaders(m, k, first, last, b, s, rest, n, k', m', g);
    SplitBack(m, k, first, last, b, s, rest, n, k', m', g);
    SplitFlags(k, first, last, b, s, rest, n, g, k');
    SplitWithin(m, m', b, rest, n, Header(k', n), Header(k', rest), Header(k', b));
    SplitKept(m, k, first, last, b, s, m', k', g);
  }

  // ----- the two ways to settle the flag a split leaves open -----

  function FlagFreeB(k: Blocks, c: int): (r: Blocks) { k.(prevFree := k.prevFree + {c}) }
  function FlagUsedB(k: Blocks, c: int): (r: Blocks) { k.(prevFree := k.prevFree - {c}) }

  lemma {:induction false} FlagFreeMem(m: Mem, k: Blocks, b: int, c: int)
    requires b in k.size && c in k.size && c == Next(k.size, b) && k.size[b] > 0
    requires AlignedBlock(k.size, b) && AlignedBlock(k.size, c)
    requires m[b + 8] == Header(k, b) && m[c + 8] == Header(k, c)
    ensures SetPrevFree(LinkNext(m, b), c) == m[c := b][c + 8 := Header(FlagFreeB(k, c), c)]
    ensures LinkNext(SetPrevFree(m, c), b) == SetPrevFree(LinkNext(m, b), c)
  {
    PackParts(k.size[b], b in k.free, b in k.prevFree);
    PackParts(k.size[c], c in k.free, c in k.prevFree);
  }

  lemma {:induction false} FlagFreeBack(m: Mem, k: Blocks, first: int, last: int, b: int, c: int, m': Mem, k': Blocks,
      w: int)
    requires Tiles(k.size, first, last) && BackLinks(m, k, last, c) && Flags(k, first, last, c)
    requires b in k.size && b in k.free && b != last && c == Next(k.size, b) && c in k.size
    requires m' == m[c := b][c + 8 := w] && k' == FlagFreeB(k, c)
    ensures BackLinks(m', k', last, NOWHERE)
  {
    forall d {:trigger PrevPhys(m', d)} | d in k'.prevFree
      ensures var p := PrevPhys(m', d); p in k'.size && p != last && p in k'.free && p + 8 + k'.size[p] == d
    {
      if d != c {
        assert PrevPhys(m', d) == PrevPhys(m, d);
      }
    }
  }

  lemma {:induction false} FlagHeaders(m: Mem, k: Blocks, first: int, last: int, b: int, c: int, m': Mem, k': Blocks)
    requires Tiles(k.size, first, last) && Headers(m, k)
    requires b in k.size && b != last && c == Next(k.size, b) && c in k.size
    requires k' == FlagFreeB(k, c) || k' == FlagUsedB(k, c)
    requires m' == m[c := b][c + 8 := Header(k', c)] || m' == m[c + 8 := Header(k', c)]
    ensures Headers(m', k')
  {
  }

  /** `block_link_next(b)` and `block_set_prev_free(c)`, in either order, for a free block
      b before c. */
  lemma {:induction false} FlagFreeChain(m: Mem, k: Blocks, first: int, last: int, b: int, c: int)
    requires Chain(m, k, first, last, c)
    requires b in k.size && b in k.free && b != last && c == Next(k.size, b)
    ensures Chain(SetPrevFree(LinkNext(m, b), c), FlagFreeB(k, c), first, last, NOWHERE)
    ensures LinkNext(SetPrevFree(m, c), b) == SetPrevFree(LinkNext(m, b), c)
    ensures c in k.size && Within(m, SetPrevFree(LinkNext(m, b), c), b, c)
    ensures Kept(m, k, SetPrevFree(LinkNext(m, b), c), FlagFreeB(k, c), b)
  {
    assert c in k.size;
    assert AlignedBlock(k.size, b) && AlignedBlock(k.size, c);
    var m', k' := SetPrevFree(LinkNext(m, b), c), FlagFreeB(k, c);
    FlagFreeMem(m, k, b, c);
    FlagHeaders(m, k, first, last, b, c, m', k');
    FlagFreeBack(m, k, first, last, b, c, m', k', Header(k', c));
    WithinKept(m, k, m', k', first, last, b, c, b);
  }

  lemma {:induction false} FlagUsedBack(m: Mem, k: Blocks, first: int, last: int, b: int, c: int, m': Mem, k': Blocks,
      w: int)
    requires Tiles(k.size, first, last) && BackLinks(m, k, last, c) && Flags(k, first, last, c)
    requires b in k.size && b != last && c == Next(k.size, b) && c in k.size
    requires m' == m[c + 8 := w] && k' == FlagUsedB(k, c)
    ensures BackLinks(m', k', last, NOWHERE)
  {
    forall d {:trigger PrevPhys(m', d)} | d in k'.prevFree
      ensures var p := PrevPhys(m', d); p in k'.size && p != last && p in k'.free && p + 8 + k'.size[p] == d
    {
      assert PrevPhys(m', d) == PrevPhys(m, d);
    }
  }

  /** `block_set_prev_used(c)` for a used block b before c. */
  lemma {:induction false} FlagUsedChain(m: Mem, k: Blocks, first: int, last: int, b: int, c: int)
    requires Chain(m, k, first, last, c)
    requires b in k.size && b !in k.free && b != last && c == Next(k.size, b)
    ensures Chain(SetPrevUsed(m, c), FlagUsedB(k, c), first, last, NOWHERE)
    ensures c in k.size && Within(m, SetPrevUsed(m, c), b, c)
    ensures forall a :: a != c + 8 ==> SetPrevUsed(m, c)[a] == m[a]
    ensures Kept(m, k, SetPrevUsed(m, c), FlagUsedB(k, c), b)
  {
    assert c in k.size;
    assert AlignedBlock(k.size, c);
    PackParts(k.size[c], c in k.free, c in k.prevFree);
    var m', k' := SetPrevUsed(m, c), FlagUsedB(k, c);
    FlagHeaders(m, k, first, last, b, c, m', k');
    FlagUsedBack(m, k, first, last, b, c, m', k', Header(k', c));
    WithinKept(m, k, m', k', first, last, b, c, b);
  }

  // ----- block_absorb -----

  /** `block_absorb` */
  function Absorb(m: Mem, p: int, b: int): (r: Mem)
  {
    LinkNext(m[p + 8 := m[p + 8] + (SizeOf(m[b + 8]) + 8)], p)
  }

  function AbsorbB(k: Blocks, p: int, b: int): (r: Blocks)
    requires p in k.size && b in k.size
  {
    Blocks((k.size - {b})[p := k.size[p] + 8 + k.size[b]], k.free - {b}, k.prevFree - {b})
  }

  lemma {:induction false} AbsorbOrder(k: Blocks, first: int, last: int, p: int, b: int, size': map<int, int>, c: int,
      d: int)
    requires Tiles(k.size, first, last)
    requires p in k.size && b in k.size && p != last && b != last && b == Next(k.size, p)
    requires size' == AbsorbB(k, p, b).size
    requires c in size' && d in size' && c < d
    ensures c + 8 + size'[c] <= d
  {
    assert d in k.size && c in k.size;
    if c == p {
      assert b < d;
    }
  }

  lemma {:induction false} AbsorbNext(k: Blocks, first: int, last: int, p: int, b: int, size': map<int, int>, c: int)
    requires Tiles(k.size, first, last)
    requires p in k.size && b in k.size && p != last && b != last && b == Next(k.size, p)
    requires size' == AbsorbB(k, p, b).size
    requires c in size' && c != last
    ensures Next(size', c) in size'
  {
    if c == p {
      assert Next(size', c) == Next(k.size, b);
    } else {
      assert Next(size', c) == Next(k.size, c);
      assert Next(k.size, c) != b;
    }
  }

  lemma {:induction false} AbsorbTiles(k: Blocks, first: int, last: int, p: int, b: int)
    requires Tiles(k.size, first, last)
    requires p in k.size && b in k.size && p != last && b != last && b == Next(k.size, p)
    ensures Tiles(AbsorbB(k, p, b).size, first, last)
  {
    var size' := AbsorbB(k, p, b).size;
    forall c, d {:trigger c in size', d in size'} | c in size' && d in size' && c < d
      ensures c + 8 + size'[c] <= d
    {
      AbsorbOrder(k, first, last, p, b, size', c, d);
    }
    forall c {:trigger Next(size', c)} | c in size' && c != last
      ensures Next(size', c) in size'
    {
      AbsorbNext(k, first, last, p, b, size', c);
    }
  }

  lemma {:induction false} AbsorbAligned(k: Blocks, p: int, b: int)
    requires WordAligned(k.size) && p in k.size && b in k.size && p != b
    ensures WordAligned(AbsorbB(k, p, b).size)
  {
    var k' := AbsorbB(k, p, b);
    forall c {:trigger AlignedBlock(k'.size, c)} | c in k'.size ensures AlignedBlock(k'.size, c) {
      assert AlignedBlock(k.size, p) && AlignedBlock(k.size, b) && AlignedBlock(k.size, c);
    }
  }

  lemma {:induction false} AbsorbMem(m: Mem, k: Blocks, p: int, b: int, n: int, k': Blocks)
    requires p in k.size && b in k.size && p != b && n == b + 8 + k.size[b] && b == p + 8 + k.size[p]
    requires m[p + 8] == Header(k, p) && m[b + 8] == Header(k, b)
    requires AlignedBlock(k.size, p) && AlignedBlock(k.size, b) && k.size[p] > 0 && k.size[b] > 0
    requires k' == AbsorbB(k, p, b)
    ensures Absorb(m, p, b) == m[p + 8 := Header(k', p)][n := p]
  {
    PackParts(k.size[b], b in k.free, b in k.prevFree);
    var s := k.size[p] + 8 + k.size[b];
    PackParts(s, p in k.free, p in k.prevFree);
    assert m[p + 8] + (SizeOf(m[b + 8]) + 8) == Pack(s, p in k.free, p in k.prevFree);
  }

  lemma {:induction false} AbsorbHeaders(m: Mem, k: Blocks, first: int, last: int, p: int, b: int, n: int, k': Blocks,
      m': Mem)
    requires Tiles(k.size, first, last) && Headers(m, k)
    requires p in k.size && b in k.size && p != last && b != last && b == Next(k.size, p)
    requires n == Next(k.size, b) && n in k.size
    requires k' == AbsorbB(k, p, b) && m' == m[p + 8 := Header(k', p)][n := p]
    ensures Headers(m', k')
  {
    forall c | c in k'.size ensures m'[c + 8] == Header(k', c) {
      if c != p {
        assert c in k.size;
        assert m'[c + 8] == m[c + 8];
      }
    }
  }

  lemma {:induction false} AbsorbBack(m: Mem, k: Blocks, first: int, last: int, p: int, b: int, n: int, k': Blocks,
      m': Mem, stale: int)
    requires Tiles(k.size, first, last) && BackLinks(m, k, last, NOWHERE) && Flags(k, first, last, NOWHERE)
    requires p in k.size && b in k.size && p != last && b != last && b == Next(k.size, p)
    requires n == Next(k.size, b) && n in k.size
    requires stale == if p in k.free then NOWHERE else n
    requires k' == AbsorbB(k, p, b) && m' == m[p + 8 := Header(k', p)][n := p]
    ensures BackLinks(m', k', last, stale)
  {
    forall c {:trigger PrevPhys(m', c)} | c in k'.prevFree && c != stale
      ensures var q := PrevPhys(m', c); q in k'.size && q != last && q in k'.free && q + 8 + k'.size[q] == c
    {
      if c != n {
        assert c in k.prevFree && c in k.size;
        assert PrevPhys(m', c) == PrevPhys(m, c);
        assert PrevPhys(m, c) != b && PrevPhys(m, c) != p;
      }
    }
  }

  lemma {:induction false} AbsorbFlags(k: Blocks, first: int, last: int, p: int, b: int, n: int, k': Blocks, stale: int)
    requires Tiles(k.size, first, last) && Flags(k, first, last, NOWHERE)
    requires p in k.size && b in k.size && p != last && b != last && b == Next(k.size, p) && b in k.free
    requires n == Next(k.size, b) && n in k.size
    requires stale == if p in k.free then NOWHERE else n
    requires k' == AbsorbB(k, p, b)
    ensures Flags(k', first, last, stale)
  {
    forall c {:trigger Next(k'.size, c)} | c in k'.size && c != last && Next(k'.size, c) != stale
      ensures Next(k'.size, c) in k'.prevFree <==> c in k'.free
    {
      if c == p {
        assert Next(k'.size, c) == n;
      } else {
        assert Next(k'.size, c) == Next(k.size, c);
        assert Next(k.size, c) != b;
      }
    }
  }

  /** Absorbing a free block keeps the chain true; if the absorbing block is in use the
      successor's flag is left for `block_mark_as_used` to settle. */
  lemma {:induction false} AbsorbChain(m: Mem, k: Blocks, first: int, last: int, p: int, b: int, stale: int)
    requires Chain(m, k, first, last, NOWHERE)
    requires p in k.size && b in k.size && p != last && b != last && b == Next(k.size, p) && b in k.free
    requires stale == if p in k.free then NOWHERE else Next(k.size, b)
    ensures Chain(Absorb(m, p, b), AbsorbB(k, p, b), first, last, stale)
    ensures Next(k.size, b) in k.size
    ensures Within(m, Absorb(m, p, b), p, Next(k.size, b))
    ensures forall a :: p + 16 <= a < Next(k.size, p) + 8 ==> Absorb(m, p, b)[a] == m[a]
    ensures Kept(m, k, Absorb(m, p, b), AbsorbB(k, p, b), p)
  {
    var n := Next(k.size, b);
    assert n in k.size;
    var m', k' := Absorb(m, p, b), AbsorbB(k, p, b);
    assert AlignedBlock(k.size, p) && AlignedBlock(k.size, b);
    AbsorbMem(m, k, p, b, n, k');
    AbsorbAligned(k, p, b);
    AbsorbTiles(k, first, last, p, b);
    AbsorbHeaders(m, k, first, last, p, b, n, k', m');
    AbsorbBack(m, k, first, last, p, b, n, k', m', stale);
    AbsorbFlags(k, first, last, p, b, n, k', stale);
    WithinKept(m, k, m', k', first, last, p, n, p);
  }
}
