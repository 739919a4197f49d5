/** The heap invariant and how each header or list operation keeps it. */
module TlsfSound {
  import opened Shifts
  import opened Bits
  import opened TlsfMap
  import opened TlsfState
  import opened TlsfPhys
  import opened TlsfLists

  /** What holds between any two header operations: the chain tiles the pool and is
      true, the lists are well formed, in memory, filed by size, and mirrored by the
      bitmaps. */
  ghost predicate Sound(m: Mem, fl: nat, sl: seq<nat>, k: Blocks, node: map<int, Node>, tab: seq<int>, base: int,
      last: int, stale: int)
  {
    && base > 0
    && Chain(m, k, base + 6528, last, stale)
    && Lists(node, tab, base) && Links(m, node, tab, base)
    && Filed(k, node) && Maps(fl, sl, tab, base)
  }

  lemma {:induction false} InsertFiled(k: Blocks, node: map<int, Node>, tab: seq<int>, nil: int, b: int, i: int,
      node': map<int, Node>)
    requires Lists(node, tab, nil) && 0 <= i < LISTS && b !in node && b != nil
    requires node' == InsertN(node, tab, nil, b, i)
    requires Filed(k, node) && b in k.free && b in k.size && k.size[b] >= 0 && i == Class(k.size[b])
    ensures Filed(k, node')
  {
    forall d {:trigger Class(k.size[d])} | d in node' ensures node'[d].cls == Class(k.size[d]) {
      InsertEffect(node, tab, nil, b, i, node', d);
      if d != b {
        assert node[d].cls == Class(k.size[d]);
      }
    }
  }

  lemma {:induction false} InsertChain(m: Mem, k: Blocks, base: int, last: int, b: int, i: int, h: int)
    requires Chain(m, k, base + 6528, last, NOWHERE) && b in k.free && 0 <= i < LISTS
    requires h == m[Slot(base, i)] && (h == base || h in k.free)
    ensures Chain(InsertM(m, base, b, i), k, base + 6528, last, NOWHERE)
    ensures Kept(m, k, InsertM(m, base, b, i), k, NOWHERE)
  {
    InsertSameChain(m, k, base, last, b, i, h);
    SameChainSound(m, InsertM(m, base, b, i), k, base, last);
  }

  /** `insert_free_block` keeps the heap sound and files the block. */
  lemma {:induction false} InsertSound(m: Mem, fl: nat, sl: seq<nat>, k: Blocks, node: map<int, Node>, tab: seq<int>,
      base: int, last: int, b: int, i: Index, q: int)
    requires Sound(m, fl, sl, k, node, tab, base, last, NOWHERE)
    requires b in k.free && b !in node && b in k.size
    requires i.fl < FL_INDEX_COUNT && i.sl < SL_INDEX_COUNT && q == i.Flat()
    requires 0 <= q < LISTS && (tab[q] != base ==> tab[q] in node)
    requires Filed(k, InsertN(node, tab, base, b, q))
    ensures Sound(InsertM(m, base, b, q), SetBit(fl, i.fl), sl[i.fl := SetBit(sl[i.fl], i.sl)], k,
                  InsertN(node, tab, base, b, q), tab[q := b], base, last, NOWHERE)
    ensures InsertN(node, tab, base, b, q).Keys == node.Keys + {b}
    ensures Kept(m, k, InsertM(m, base, b, q), k, NOWHERE)
  {
    var node', tab', m' := InsertN(node, tab, base, b, q), tab[q := b], InsertM(m, base, b, q);
    assert Lists(node', tab', base) && node'.Keys == node.Keys + {b} by { InsertLists(node, tab, base, b, q); }
    assert Links(m', node', tab', base) by { InsertLinks(m, k, node, tab, base, base + 6528, last, b, q); }
    assert Maps(SetBit(fl, i.fl), sl[i.fl := SetBit(sl[i.fl], i.sl)], tab',
      base) by { InsertMaps(fl, sl, tab, base, b, i.fl, i.sl); }
    InsertChain(m, k, base, last, b, q, tab[q]);
  }

  function RemoveFl(fl: nat, sl: seq<nat>, i: Index, emptied: bool): (r: nat)
    requires i.fl < |sl|
  {
    if emptied then ClearedRow(fl, ClearBit(sl[i.fl], i.sl), i.fl) else fl
  }

  function RemoveSl(sl: seq<nat>, i: Index, emptied: bool): (r: seq<nat>)
    requires i.fl < |sl|
  {
    if emptied then sl[i.fl := ClearBit(sl[i.fl], i.sl)] else sl
  }

  lemma {:induction false} RemoveMaps(fl: nat, sl: seq<nat>, node: map<int, Node>, tab: seq<int>, nil: int, b: int,
      i: Index, e: bool)
    requires Lists(node, tab, nil) && Maps(fl, sl, tab, nil) && b in node && b != nil
    requires i.fl < FL_INDEX_COUNT && i.sl < SL_INDEX_COUNT && node[b].cls == i.Flat()
    requires e <==> tab[i.Flat()] == b && node[b].next == nil
    ensures Maps(RemoveFl(fl, sl, i, e), RemoveSl(sl, i, e), RemoveT(node, tab, b), nil)
  {
    if e {
      EmptyMaps(fl, sl, tab, nil, i.fl, i.sl);
    } else if tab[i.Flat()] == b {
      SameMaps(fl, sl, tab, nil, i.Flat(), node[b].next);
    }
  }

  lemma {:induction false} RemoveFiled(k: Blocks, node: map<int, Node>, tab: seq<int>, nil: int, b: int,
      node': map<int, Node>)
    requires Removable(node, tab, nil, b) && Filed(k, node) && node' == RemoveN(node, nil, b)
    ensures Filed(k, node')
  {
    RemoveEffect(node, tab, nil, b, node');
    forall d {:trigger Class(k.size[d])} | d in node' ensures node'[d].cls == Class(k.size[d]) {
      assert node[d].cls == Class(k.size[d]);
    }
  }

  lemma {:induction false} RemoveChain(m: Mem, k: Blocks, base: int, last: int, b: int, i: int, n: int, p: int)
    requires Chain(m, k, base + 6528, last, NOWHERE) && 0 <= i < LISTS
    requires n == m[b + 16] && p == m[b + 24]
    requires (n == base || n in k.free) && (p == base || p in k.free)
    ensures Chain(RemoveM(m, base, b, i), k, base + 6528, last, NOWHERE)
    ensures Kept(m, k, RemoveM(m, base, b, i), k, NOWHERE)
  {
    RemoveSameChain(m, k, base, last, b, i, n, p);
    SameChainSound(m, RemoveM(m, base, b, i), k, base, last);
  }

  /** `remove_free_block` keeps the heap sound and unfiles just that block. */
  lemma {:induction false} RemoveSound(m: Mem, fl: nat, sl: seq<nat>, k: Blocks, node: map<int, Node>, tab: seq<int>,
      base: int, last: int, b: int, i: Index, e: bool)
    requires Sound(m, fl, sl, k, node, tab, base, last, NOWHERE)
    requires b in node && i.fl < FL_INDEX_COUNT && i.sl < SL_INDEX_COUNT && node[b].cls == i.Flat()
    requires e <==> tab[i.Flat()] == b && node[b].next == base
    ensures Removable(node, tab, base, b)
    ensures Sound(RemoveM(m, base, b, i.Flat()), RemoveFl(fl, sl, i, e), RemoveSl(sl, i, e), k,
                  RemoveN(node, base, b), RemoveT(node, tab, b), base, last, NOWHERE)
    ensures RemoveN(node, base, b).Keys == node.Keys - {b}
    ensures Kept(m, k, RemoveM(m, base, b, i.Flat()), k, NOWHERE)
  {
    assert Removable(node, tab, base, b) by { RemoveLists(node, tab, base, b); }
    var node', tab', m' := RemoveN(node, base, b), RemoveT(node, tab, b), RemoveM(m, base, b, i.Flat());
    assert Lists(node', tab', base) && node'.Keys == node.Keys - {b} by { RemoveLists(node, tab, base, b); }
    assert Links(m', node', tab', base) by { RemoveLinks(m, k, node, tab, base, base + 6528, last, b); }
    assert Filed(k, node') by { RemoveFiled(k, node, tab, base, b, node'); }
    assert Maps(RemoveFl(fl, sl, i, e), RemoveSl(sl, i, e), tab',
      base) by { RemoveMaps(fl, sl, node, tab, base, b, i, e); }
    RemoveChain(m, k, base, last, b, i.Flat(), node[b].next, node[b].prev);
  }

  lemma {:induction false} ClassIndex(size: int)
    requires 0 <= size < BLOCK_SIZE_MAX
    ensures MappingInsert(size).fl < FL_INDEX_COUNT && MappingInsert(size).sl < SL_INDEX_COUNT
    ensures Class(size) == MappingInsert(size).Flat() && 0 <= Class(size) < LISTS
  {
    MappingInsertRange(size);
  }

  /** Nothing outside the heap's own region is written. */
  ghost predicate Outside(m: Mem, m': Mem, base: int, last: int)
  {
    forall a {:trigger m'[a]} :: a < base || last + 8 < a ==> m'[a] == m[a]
  }

  lemma {:induction false} InsertOutside(m: Mem, k: Blocks, base: int, last: int, b: int, i: int, h: int)
    requires Tiles(k.size, base + 6528, last) && k.free <= k.size.Keys && last !in k.free
    requires b in k.free && 0 <= i < LISTS && h == m[Slot(base, i)] && (h == base || h in k.free)
    ensures Outside(m, InsertM(m, base, b, i), base, last)
  {
    LinkWordHeader(k, base, last, b, b + 24, last);
    LinkWordHeader(k, base, last, h, h + 24, last);
    assert h in k.free ==> h in k.size;
  }

  lemma {:induction false} RemoveOutside(m: Mem, k: Blocks, base: int, last: int, b: int, i: int, n: int, p: int)
    requires Tiles(k.size, base + 6528, last) && k.free <= k.size.Keys && last !in k.free
    requires 0 <= i < LISTS && n == m[b + 16] && p == m[b + 24]
    requires (n == base || n in k.free) && (p == base || p in k.free)
    ensures Outside(m, RemoveM(m, base, b, i), base, last)
  {
    LinkWordHeader(k, base, last, n, n + 24, last);
    LinkWordHeader(k, base, last, p, p + 16, last);
    assert n in k.free ==> n in k.size;
    assert p in k.free ==> p in k.size;
  }

  /** What a header word in the chain says. */
  lemma {:induction false} HeaderFacts(m: Mem, k: Blocks, base: int, last: int, stale: int, b: int)
    requires Chain(m, k, base + 6528, last, stale) && b in k.size
    ensures SizeOf(m[b + 8]) == k.size[b] && FreeBit(m[b + 8]) == (b in k.free)
      && PrevFreeBit(m[b + 8]) == (b in k.prevFree)
    ensures 0 <= k.size[b] <= 0xFFFF_FFF8 && b % 8 == 0 && k.size[b] % 8 == 0
    ensures b != last ==> 24 <= k.size[b] && Next(k.size, b) in k.size && b < Next(k.size, b) <= last
    ensures base + 6528 <= b <= last
  {
    assert AlignedBlock(k.size, b);
    PackParts(k.size[b], b in k.free, b in k.prevFree);
    if b != last {
      assert Next(k.size, b) in k.size;
    }
  }

  lemma {:induction false} FreeFacts(m: Mem, k: Blocks, base: int, last: int, b: int)
    requires Chain(m, k, base + 6528, last, NOWHERE) && b in k.free
    ensures b in k.size && b != last && SizeOf(m[b + 8]) == k.size[b] && 24 <= k.size[b] <= 0xFFFF_FFF8
    ensures var i := MappingInsert(k.size[b]);
      i.fl < FL_INDEX_COUNT && i.sl < SL_INDEX_COUNT && i.Flat() == Class(k.size[b]) && 0 <= i.Flat() < LISTS
  {
    HeaderFacts(m, k, base, last, NOWHERE, b);
    ClassIndex(k.size[b]);
  }

  /** Filing a free block under the class of its size. */
  lemma {:induction false} BlockInsertSound(m: Mem, fl: nat, sl: seq<nat>, k: Blocks, node: map<int, Node>,
      tab: seq<int>, base: int, last: int, b: int, i: Index, q: int)
    requires Sound(m, fl, sl, k, node, tab, base, last, NOWHERE)
    requires b in k.free && b !in node && b in k.size && 0 <= k.size[b] && q == i.Flat() == Class(k.size[b])
    requires i.fl < FL_INDEX_COUNT && i.sl < SL_INDEX_COUNT && 0 <= q < LISTS
    ensures tab[q] != base ==> tab[q] in node
    ensures Sound(InsertM(m, base, b, q), SetBit(fl, i.fl), sl[i.fl := SetBit(sl[i.fl], i.sl)], k,
                  InsertN(node, tab, base, b, q), tab[q := b], base, last, NOWHERE)
    ensures InsertN(node, tab, base, b, q).Keys == node.Keys + {b}
    ensures Kept(m, k, InsertM(m, base, b, q), k, NOWHERE)
    ensures Outside(m, InsertM(m, base, b, q), base, last)
  {
    assert tab[q] != base ==> tab[q] in node;
    assert Filed(k, InsertN(node, tab, base, b, q)) by {
      InsertFiled(k, node, tab, base, b, q, InsertN(node, tab, base, b, q));
    }
    InsertSound(m, fl, sl, k, node, tab, base, last, b, i, q);
    assert Outside(m, InsertM(m, base, b, q), base, last) by { InsertOutside(m, k, base, last, b, q, tab[q]); }
  }

  /** Whether unlinking block b leaves list q empty. */
  predicate RemoveEmpties(m: Mem, base: int, b: int, q: int)
  {
    var p, n := m[b + 24], m[b + 16];
    m[n + 24 := p][p + 16 := n][Slot(base, q)] == b && n == base
  }

  /** Unfiling a listed block. */
  lemma {:induction false} BlockRemoveSound(m: Mem, fl: nat, sl: seq<nat>, k: Blocks, node: map<int, Node>,
      tab: seq<int>, base: int, last: int, b: int, i: Index)
    requires Sound(m, fl, sl, k, node, tab, base, last, NOWHERE)
    requires b in node && i.fl < FL_INDEX_COUNT && i.sl < SL_INDEX_COUNT && node[b].cls == i.Flat()
    ensures |tab| == LISTS && (node[b].next != base ==> node[b].next in node)
      && (node[b].prev != base ==> node[b].prev in node)
    ensures var e := RemoveEmpties(m, base, b, i.Flat());
      Sound(RemoveM(m, base, b, i.Flat()), RemoveFl(fl, sl, i, e), RemoveSl(sl, i, e), k,
            RemoveN(node, base, b), RemoveT(node, tab, b), base, last, NOWHERE)
    ensures RemoveN(node, base, b).Keys == node.Keys - {b}
    ensures Kept(m, k, RemoveM(m, base, b, i.Flat()), k, NOWHERE)
    ensures Outside(m, RemoveM(m, base, b, i.Flat()), base, last)
  {
    var e := tab[i.Flat()] == b && node[b].next == base;
    RemoveSound(m, fl, sl, k, node, tab, base, last, b, i, e);
    var n, p := node[b].next, node[b].prev;
    assert n == m[b + 16] && p == m[b + 24];
    assert RemoveEmpties(m, base, b, i.Flat()) == e by {
      RemoveHeadRead(m, k, base, last, i.Flat(), n, p, tab);
    }
    assert Outside(m, RemoveM(m, base, b, i.Flat()), base,
      last) by { RemoveOutside(m, k, base, last, b, i.Flat(), n, p); }
  }

  lemma {:induction false} RemoveHeadRead(m: Mem, k: Blocks, base: int, last: int, q: int, n: int, p: int,
      tab: seq<int>)
    requires Tiles(k.size, base + 6528, last) && k.free <= k.size.Keys
    requires (n == base || n in k.free) && (p == base || p in k.free)
    requires HeadLinks(m, tab, base) && 0 <= q < LISTS
    ensures m[n + 24 := p][p + 16 := n][Slot(base, q)] == tab[q]
  {
    assert n in k.free ==> n in k.size;
    assert p in k.free ==> p in k.size;
  }

  // ----- header operations in a sound heap -----

  /** Every listed block lies outside [lo, hi) and is the same free block as before. */
  ghost predicate ListedApart(k: Blocks, k': Blocks, node: map<int, Node>, lo: int, hi: int)
  {
    forall d :: d in node ==>
      (d < lo || d >= hi) && d in k.size && d in k'.free && d in k'.size && k'.size[d] == k.size[d]
  }

  ghost predicate Listable(k: Blocks, node: map<int, Node>, base: int, last: int)
  {
    Tiles(k.size, base + 6528, last) && k.free <= k.size.Keys && last !in k.free
      && (forall d :: d in node ==> d in k.free)
  }

  lemma {:induction false} MarkFreeListed(k: Blocks, node: map<int, Node>, base: int, last: int, b: int)
    requires Listable(k, node, base, last) && b in k.size && b != last && b !in node
    ensures ListedApart(k, MarkFreeB(k, b), node, b, Next(k.size, b))
    ensures ListedApart(k, MarkUsedB(k, b), node, b, Next(k.size, b))
  {
  }

  lemma {:induction false} AbsorbListed(k: Blocks, node: map<int, Node>, base: int, last: int, p: int, b: int)
    requires Listable(k, node, base, last) && p in k.size && b in k.size && p != last && b == Next(k.size, p)
    requires p !in node && b !in node
    ensures ListedApart(k, AbsorbB(k, p, b), node, p, Next(k.size, b))
  {
    forall d | d in node
      ensures d < p || d >= Next(k.size, b)
    {
      assert d in k.size;
      if p < d {
        assert b <= d;
      }
    }
  }

  lemma {:induction false} SplitListed(k: Blocks, node: map<int, Node>, base: int, last: int, b: int, s: int,
      k': Blocks)
    requires Listable(k, node, base, last) && CanCut(k, last, b, s) && b !in node
    requires k'.size == k.size[b := s][b + 8 + s := k.size[b] - s - 8] && k'.free == k.free + {b + 8 + s}
    ensures ListedApart(k, k', node, b, Next(k.size, b))
  {
    assert b + 8 + s !in k.size;
  }

  lemma {:induction false} FlagListed(k: Blocks, node: map<int, Node>, base: int, last: int, b: int, k': Blocks)
    requires Listable(k, node, base, last) && b in k.size && b != last && b !in node
    requires k'.size == k.size && k'.free == k.free
    ensures ListedApart(k, k', node, b, Next(k.size, b))
  {
  }

  /** A header operation between `lo` and `hi` that leaves the listed blocks alone keeps
      the lists sound. */
  lemma {:induction false} HeaderStep(m: Mem, fl: nat, sl: seq<nat>, k: Blocks, node: map<int, Node>, tab: seq<int>,
      base: int, last: int, stale: int,
                                      m': Mem, k': Blocks, lo: int, hi: int, stale': int)
    requires Sound(m, fl, sl, k, node, tab, base, last, stale)
    requires Chain(m', k', base + 6528, last, stale')
    requires lo in k.size && hi in k.size && Within(m, m', lo, hi)
    requires ListedApart(k, k', node, lo, hi)
    ensures Sound(m', fl, sl, k', node, tab, base, last, stale')
    ensures Outside(m, m', base, last)
  {
    assert Links(m', node, tab, base) by {
      WithinLinks(m, m', k, node, tab, base, base + 6528, last, lo, hi);
    }
    assert Filed(k', node) by {
      forall d {:trigger Class(k'.size[d])} | d in node ensures node[d].cls == Class(k'.size[d]) {
        assert node[d].cls == Class(k.size[d]);
      }
    }
  }

  /** Two steps in a row, each free to change block z or nothing. */
  lemma {:induction false} KeptSeq(m0: Mem, k0: Blocks, m1: Mem, k1: Blocks, m2: Mem, k2: Blocks, x: int, y: int,
      z: int)
    requires Kept(m0, k0, m1, k1, x) && Kept(m1, k1, m2, k2, y)
    requires (x == z || x == NOWHERE) && (y == z || y == NOWHERE)
    requires NOWHERE !in k0.size && NOWHERE !in k1.size && NOWHERE !in k2.size
    ensures Kept(m0, k0, m2, k2, z)
  {
    assert Kept(m0, k0, m1, k1, z);
    assert Kept(m1, k1, m2, k2, z);
    KeptTrans(m0, k0, m1, k1, m2, k2, z);
  }

  lemma {:induction false} KeptAll(m: Mem, k: Blocks, m': Mem, k': Blocks, x: int)
    requires Kept(m, k, m', k', x) && !Used(k, x) && !Used(k', x)
    ensures Kept(m, k, m', k', NOWHERE)
  {
  }

  lemma {:induction false} MarkFreeSound(m: Mem, fl: nat, sl: seq<nat>, k: Blocks, node: map<int, Node>,
      tab: seq<int>, base: int, last: int, b: int)
    requires Sound(m, fl, sl, k, node, tab, base, last, NOWHERE)
    requires b in k.size && b != last && b !in k.free
    ensures Sound(MarkFree(m, b), fl, sl, MarkFreeB(k, b), node, tab, base, last, NOWHERE)
    ensures Kept(m, k, MarkFree(m, b), MarkFreeB(k, b), b) && Outside(m, MarkFree(m, b), base, last)
  {
    MarkFreeChain(m, k, base + 6528, last, b);
    assert ListedApart(k, MarkFreeB(k, b), node, b, Next(k.size, b)) by { MarkFreeListed(k, node, base, last, b); }
    HeaderStep(m, fl, sl, k, node, tab, base, last, NOWHERE, MarkFree(m, b), MarkFreeB(k, b), b, Next(k.size, b),
      NOWHERE);
  }

  lemma {:induction false} MarkUsedSound(m: Mem, fl: nat, sl: seq<nat>, k: Blocks, node: map<int, Node>,
      tab: seq<int>, base: int, last: int, b: int, stale: int)
    requires Sound(m, fl, sl, k, node, tab, base, last, stale)
    requires b in k.size && b != last && b !in node && (stale == NOWHERE || stale == Next(k.size, b))
    ensures Sound(MarkUsed(m, b), fl, sl, MarkUsedB(k, b), node, tab, base, last, NOWHERE)
    ensures Kept(m, k, MarkUsed(m, b), MarkUsedB(k, b), b) && Outside(m, MarkUsed(m, b), base, last)
    ensures forall a :: b + 16 <= a < Next(k.size, b) + 8 ==> MarkUsed(m, b)[a] == m[a]
  {
    MarkUsedChain(m, k, base + 6528, last, b, stale);
    assert ListedApart(k, MarkUsedB(k, b), node, b, Next(k.size, b)) by { MarkFreeListed(k, node, base, last, b); }
    HeaderStep(m, fl, sl, k, node, tab, base, last, stale, MarkUsed(m, b), MarkUsedB(k, b), b, Next(k.size, b),
      NOWHERE);
  }

  lemma {:induction false} AbsorbSound(m: Mem, fl: nat, sl: seq<nat>, k: Blocks, node: map<int, Node>, tab: seq<int>,
      base: int, last: int, p: int, b: int, stale: int)
    requires Sound(m, fl, sl, k, node, tab, base, last, NOWHERE)
    requires p in k.size && b in k.size && p != last && b != last && b == Next(k.size, p) && b in k.free
    requires p !in node && b !in node
    requires stale == if p in k.free then NOWHERE else Next(k.size, b)
    ensures Sound(Absorb(m, p, b), fl, sl, AbsorbB(k, p, b), node, tab, base, last, stale)
    ensures Kept(m, k, Absorb(m, p, b), AbsorbB(k, p, b), p) && Outside(m, Absorb(m, p, b), base, last)
    ensures forall a :: p + 16 <= a < Next(k.size, p) + 8 ==> Absorb(m, p, b)[a] == m[a]
  {
    AbsorbChain(m, k, base + 6528, last, p, b, stale);
    assert ListedApart(k, AbsorbB(k, p, b), node, p, Next(k.size, b)) by { AbsorbListed(k, node, base, last, p, b); }
    HeaderStep(m, fl, sl, k, node, tab, base, last, NOWHERE, Absorb(m, p, b), AbsorbB(k, p, b), p, Next(k.size, b),
      stale);
  }

  /** After `block_split` and before the flag of the rest is settled. */
  lemma {:induction false} SplitSound(m: Mem, fl: nat, sl: seq<nat>, k: Blocks, node: map<int, Node>, tab: seq<int>,
      base: int, last: int, b: int, s: int, k1: Blocks)
    requires Sound(m, fl, sl, k, node, tab, base, last, NOWHERE)
    requires CanCut(k, last, b, s) && s % 8 == 0 && b !in node
    requires k1 == SplitB(k, b, s, PrevFreeBit(m[b + 8 + s + 8]))
    ensures Sound(Split(m, b, s), fl, sl, k1, node, tab, base, last, b + 8 + s)
    ensures Kept(m, k, Split(m, b, s), k1, b) && Outside(m, Split(m, b, s), base, last)
    ensures b + 8 + s !in node && b + 8 + s !in k.size && b + 8 + s !in k.prevFree
    ensures forall a :: b + 16 <= a < b + 16 + s ==> Split(m, b, s)[a] == m[a]
  {
    SplitChain(m, k, base + 6528, last, b, s, k1);
    assert ListedApart(k, k1, node, b, Next(k.size, b)) by { SplitListed(k, node, base, last, b, s, k1); }
    HeaderStep(m, fl, sl, k, node, tab, base, last, NOWHERE, Split(m, b, s), k1, b, Next(k.size, b), b + 8 + s);
  }

  lemma {:induction false} FlagFreeSound(m: Mem, fl: nat, sl: seq<nat>, k: Blocks, node: map<int, Node>,
      tab: seq<int>, base: int, last: int, b: int, c: int)
    requires Sound(m, fl, sl, k, node, tab, base, last, c)
    requires b in k.size && b in k.free && b != last && c == Next(k.size, b) && b !in node
    ensures Sound(SetPrevFree(LinkNext(m, b), c), fl, sl, FlagFreeB(k, c), node, tab, base, last, NOWHERE)
    ensures LinkNext(SetPrevFree(m, c), b) == SetPrevFree(LinkNext(m, b), c)
    ensures Kept(m, k, SetPrevFree(LinkNext(m, b), c), FlagFreeB(k, c), b)
    ensures Outside(m, SetPrevFree(LinkNext(m, b), c), base, last)
  {
    FlagFreeChain(m, k, base + 6528, last, b, c);
    assert ListedApart(k, FlagFreeB(k, c), node, b, c) by { FlagListed(k, node, base, last, b, FlagFreeB(k, c)); }
    HeaderStep(m, fl, sl, k, node, tab, base, last, c, SetPrevFree(LinkNext(m, b), c), FlagFreeB(k, c), b, c, NOWHERE);
  }

  lemma {:induction false} FlagUsedSound(m: Mem, fl: nat, sl: seq<nat>, k: Blocks, node: map<int, Node>,
      tab: seq<int>, base: int, last: int, b: int, c: int)
    requires Sound(m, fl, sl, k, node, tab, base, last, c)
    requires b in k.size && b !in k.free && b != last && c == Next(k.size, b)
    ensures Sound(SetPrevUsed(m, c), fl, sl, FlagUsedB(k, c), node, tab, base, last, NOWHERE)
    ensures Kept(m, k, SetPrevUsed(m, c), FlagUsedB(k, c), b)
    ensures Outside(m, SetPrevUsed(m, c), base, last)
    ensures forall a :: a != c + 8 ==> SetPrevUsed(m, c)[a] == m[a]
  {
    FlagUsedChain(m, k, base + 6528, last, b, c);
    assert ListedApart(k, FlagUsedB(k, c), node, b, c) by { FlagListed(k, node, base, last, b, FlagUsedB(k, c)); }
    HeaderStep(m, fl, sl, k, node, tab, base, last, c, SetPrevUsed(m, c), FlagUsedB(k, c), b, c, NOWHERE);
  }

  // ----- the invariant between public operations -----

  /** A free block after a free block can only be x or y. */
  ghost predicate Pairs(k: Blocks, x: int, y: int)
  {
    forall c :: c in k.free && c in k.prevFree ==> c == x || c == y
  }

  /** Every free block is listed, and no two neighbours are both free. */
  ghost predicate Settled(k: Blocks, node: map<int, Node>)
  {
    node.Keys == k.free && forall c :: c in k.free ==> c !in k.prevFree
  }

  /** Block b is free and off the lists; all other free blocks are listed. */
  ghost predicate Holding(k: Blocks, node: map<int, Node>, b: int)
  {
    b in k.free && node.Keys == k.free - {b}
  }

  /** Every block from list `i` on is big enough for the request, and the request is
      served by the first of them. */
  lemma {:induction false} ServedBy(k: Blocks, node: map<int, Node>, b: int, size: nat)
    requires Filed(k, node) && b in node && 24 <= size && size % 8 == 0
    requires MappingSearch(size).Flat() <= node[b].cls
    ensures size <= k.size[b]
  {
    assert node[b].cls == Class(k.size[b]);
    GoodFit(size, k.size[b]);
  }

  /** With every list from `q` on empty, no listed block is filed there. */
  lemma {:induction false} NoneFrom(node: map<int, Node>, tab: seq<int>, nil: int, q: int, b: int)
    requires Lists(node, tab, nil) && b in node && 0 <= q
    requires forall i :: q <= i < LISTS ==> tab[i] == nil
    ensures node[b].cls < q
  {
    var h := HeadOf(node, tab, nil, b);
  }

  /** No list that could serve a request of this size holds a block, or the request is
      none. */
  ghost predicate NoFit(node: map<int, Node>, size: nat)
  {
    size == 0 || forall c {:trigger node[c]} :: c in node ==> node[c].cls < MappingSearch(size).Flat()
  }

  /** Block b is on the lowest list from i on that is not empty. */
  ghost predicate FirstFit(node: map<int, Node>, b: int, i: int)
  {
    b in node && i <= node[b].cls
    && forall c {:trigger node[c].cls} :: c in node && i <= node[c].cls ==> node[b].cls <= node[c].cls
  }

  lemma {:induction false} FirstFits(node: map<int, Node>, tab: seq<int>, nil: int, b: int, i: int, j: int)
    requires Lists(node, tab, nil) && b in node && node[b].cls == j && 0 <= i <= j < LISTS
    requires forall q :: i <= q < j ==> tab[q] == nil
    ensures FirstFit(node, b, i)
  {
    forall c {:trigger node[c].cls} | c in node && i <= node[c].cls ensures j <= node[c].cls {
      var h := HeadOf(node, tab, nil, c);
    }
  }

  /** Following `prev` from a listed block ends at the head of its list. */
  lemma {:induction false} HeadOf(node: map<int, Node>, tab: seq<int>, nil: int, b: int) returns (h: int)
    requires Lists(node, tab, nil) && b in node
    ensures h in node && h == tab[node[b].cls] && h != nil
    decreases MaxRank(node, node.Keys) - node[b].rank
  {
    RankBelow(node, node.Keys, b);
    if node[b].prev == nil {
      h := b;
    } else {
      var p := node[b].prev;
      assert p in node && node[p].next == b && node[p].cls == node[b].cls;
      assert node[p].next != nil && node[b].rank < node[p].rank;
      RankBelow(node, node.Keys, p);
      h := HeadOf(node, tab, nil, p);
    }
  }

  ghost function MaxRank(node: map<int, Node>, on: set<int>): (r: int)
    requires on <= node.Keys
  {
    if b :| b in on then
      var r := MaxRank(node, on - {b});
      if node[b].rank > r then node[b].rank else r
    else 0
  }

  lemma {:induction false} RankBelow(node: map<int, Node>, on: set<int>, c: int)
    requires on <= node.Keys && c in on
    ensures node[c].rank <= MaxRank(node, on)
  {
    var b :| b in on && MaxRank(node, on) == var r := MaxRank(node, on - {b});
      if node[b].rank > r then node[b].rank else r;
    if c != b {
      RankBelow(node, on - {b}, c);
    }
  }
}
