/** What the heap invariant means: exact tiling, disjoint payloads, complete lists, and
    a runtime self-check that never complains. */
module TlsfTheorems {
  import opened Shifts
  import opened Bits
  import opened TlsfMap
  import opened TlsfState
  import opened TlsfPhys
  import opened TlsfLists
  import opened TlsfSound
  import opened TlsfBytes
  import opened Tlsf

  // ----- the pool is tiled exactly -----

  /** Header addresses `tlsf_walk_pool` visits from block b on, sentinel excluded. */
  ghost function Walk(size: map<int, int>, first: int, last: int, b: int): (w: seq<int>)
    requires Tiles(size, first, last) && b in size
    decreases last - b
  {
    if b == last then [] else [b] + Walk(size, first, last, Next(size, b))
  }

  ghost function Footprint(size: map<int, int>, w: seq<int>): (r: int)
    requires forall i :: 0 <= i < |w| ==> w[i] in size
  {
    if w == [] then 0 else size[w[0]] + 8 + Footprint(size, w[1..])
  }

  /** Blocks in strictly increasing order between b and the sentinel. */
  ghost predicate Ascending(size: map<int, int>, last: int, b: int, w: seq<int>)
  {
    && (forall i :: 0 <= i < |w| ==> w[i] in size && b <= w[i] < last)
    && (forall i, j :: 0 <= i < j < |w| ==> w[i] < w[j])
  }

  lemma {:induction false} WalkAscends(size: map<int, int>, first: int, last: int, b: int)
    requires Tiles(size, first, last) && b in size
    ensures Ascending(size, last, b, Walk(size, first, last, b))
    decreases last - b
  {
    if b != last {
      WalkAscends(size, first, last, Next(size, b));
    }
  }

  lemma {:induction false} WalkCovers(size: map<int, int>, first: int, last: int, b: int, c: int)
    requires Tiles(size, first, last) && b in size && c in size && b <= c < last
    ensures c in Walk(size, first, last, b)
    decreases last - b
  {
    var w := Walk(size, first, last, b);
    if c == b {
      assert w[0] == c;
    } else {
      var n := Next(size, b);
      assert n <= c;
      WalkCovers(size, first, last, n, c);
      assert w == [b] + Walk(size, first, last, n);
    }
  }

  lemma {:induction false} FootprintCons(size: map<int, int>, b: int, v: seq<int>)
    requires b in size && forall i :: 0 <= i < |v| ==> v[i] in size
    ensures forall i :: 0 <= i < |[b] + v| ==> ([b] + v)[i] in size
    ensures Footprint(size, [b] + v) == size[b] + 8 + Footprint(size, v)
  {
    assert ([b] + v)[1..] == v;
  }

  /** The walk visits every block from b on exactly once, in address order, and their sizes
      and overheads add up to the rest of the pool. */
  lemma {:induction false} WalkTiles(size: map<int, int>, first: int, last: int, b: int)
    requires Tiles(size, first, last) && b in size
    ensures Ascending(size, last, b, Walk(size, first, last, b))
    ensures forall c :: c in size && b <= c < last ==> c in Walk(size, first, last, b)
    ensures Footprint(size, Walk(size, first, last, b)) == last - b
    decreases last - b
  {
    WalkAscends(size, first, last, b);
    forall c | c in size && b <= c < last ensures c in Walk(size, first, last, b) {
      WalkCovers(size, first, last, b, c);
    }
    if b != last {
      var n := Next(size, b);
      WalkTiles(size, first, last, n);
      FootprintCons(size, b, Walk(size, first, last, n));
    }
  }

  /** The walk of the whole pool accounts for every byte between its ends. */
  lemma {:induction false} PoolConserved(h: Heap)
    requires h.Valid()
    ensures var w := Walk(h.k.size, h.base + 6528, h.last, h.base + 6528);
      && (forall i :: 0 <= i < |w| ==> w[i] in h.k.size)
      && (forall c :: c in h.k.size && c != h.last ==> c in w)
      && Footprint(h.k.size, w) == h.last - (h.base + 6528)
  {
    WalkTiles(h.k.size, h.base + 6528, h.last, h.base + 6528);
  }

  /** Live payloads lie inside the pool and do not overlap. */
  lemma {:induction false} PayloadsDisjoint(h: Heap, u: int, v: int)
    requires h.Valid() && Used(h.k, u) && Used(h.k, v) && u != v
    ensures h.base + 6536 <= u + 8 && u + 16 + h.k.size[u] <= h.last + 8
    ensures u + 16 + h.k.size[u] <= v + 8 || v + 16 + h.k.size[v] <= u + 8
  {
    assert u != h.last && v != h.last;
    assert Next(h.k.size, u) in h.k.size;
  }

  // ----- every free block is on exactly the list of its class -----

  /** The list of blocks from b on, following `next_free` in memory. */
  ghost function ListFrom(m: Mem, node: map<int, Node>, tab: seq<int>, nil: int, b: int): (w: seq<int>)
    requires Lists(node, tab, nil) && NodeLinks(m, node) && (b == nil || b in node)
    decreases if b == nil then 0 else 1, if b == nil then 0 else node[b].rank - LowRank(node, node.Keys)
  {
    if b == nil then []
    else
      assert node[b].next != nil ==> node[b].next in node;
      LowRankBelow(node, node.Keys, b);
      if m[b + 16] == nil then [b]
      else
        LowRankBelow(node, node.Keys, m[b + 16]);
        [b] + ListFrom(m, node, tab, nil, m[b + 16])
  }

  ghost function LowRank(node: map<int, Node>, on: set<int>): (r: int)
    requires on <= node.Keys
  {
    if b :| b in on then
      var r := LowRank(node, on - {b});
      if node[b].rank < r then node[b].rank else r
    else 0
  }

  lemma {:induction false} LowRankBelow(node: map<int, Node>, on: set<int>, c: int)
    requires on <= node.Keys && c in on
    ensures LowRank(node, on) <= node[c].rank
  {
    var b :| b in on && LowRank(node, on) == var r := LowRank(node, on - {b});
      if node[b].rank < r then node[b].rank else r;
    if c != b {
      LowRankBelow(node, on - {b}, c);
    }
  }

  lemma {:induction false} ListShape(m: Mem, node: map<int, Node>, tab: seq<int>, nil: int, b: int)
    requires Lists(node, tab, nil) && NodeLinks(m, node) && b in node
    ensures var w := ListFrom(m, node, tab, nil, b);
      && (forall i :: 0 <= i < |w| ==> w[i] in node && node[w[i]].cls == node[b].cls && node[w[i]].rank <= node[b].rank)
      && (forall i, j :: 0 <= i < j < |w| ==> w[i] != w[j])
      && (forall p :: p in w && node[p].next != nil ==> node[p].next in w)
    decreases node[b].rank - LowRank(node, node.Keys)
  {
    LowRankBelow(node, node.Keys, b);
    var n := node[b].next;
    assert m[b + 16] == n;
    if n != nil {
      assert n in node && node[n].rank < node[b].rank && node[n].cls == node[b].cls;
      LowRankBelow(node, node.Keys, n);
      ListShape(m, node, tab, nil, n);
      var w, v := ListFrom(m, node, tab, nil, b), ListFrom(m, node, tab, nil, n);
      assert w == [b] + v;
      assert v[0] == n;
    }
  }

  lemma {:induction false} OnItsList(m: Mem, node: map<int, Node>, tab: seq<int>, nil: int, b: int)
    requires Lists(node, tab, nil) && NodeLinks(m, node) && b in node
    ensures var h := tab[node[b].cls]; h in node && b in ListFrom(m, node, tab, nil, h)
    decreases MaxRank(node, node.Keys) - node[b].rank
  {
    RankBelow(node, node.Keys, b);
    var p := node[b].prev;
    if p == nil {
      assert tab[node[b].cls] == b;
      assert ListFrom(m, node, tab, nil, b)[0] == b;
    } else {
      assert p in node && node[p].next == b && node[p].cls == node[b].cls;
      assert node[p].next != nil && node[b].rank < node[p].rank;
      RankBelow(node, node.Keys, p);
      OnItsList(m, node, tab, nil, p);
      ListShape(m, node, tab, nil, tab[node[b].cls]);
    }
  }

  /** Each list in memory holds exactly the free blocks whose size maps to it, each once. */
  lemma {:induction false} ListsComplete(h: Heap, i: int)
    requires h.Valid() && 0 <= i < LISTS
    ensures h.mem[Slot(h.base, i)] == h.tab[i] && (h.tab[i] == h.base || h.tab[i] in h.node)
    ensures var w := ListFrom(h.mem, h.node, h.tab, h.base, h.tab[i]);
      && (forall b {:trigger b in w} :: b in w <==>
           b in h.k.free && b in h.k.size && h.k.size[b] >= 0 && Class(h.k.size[b]) == i)
      && (forall a, b :: 0 <= a < b < |w| ==> w[a] != w[b])
  {
    var head := h.tab[i];
    var w := ListFrom(h.mem, h.node, h.tab, h.base, head);
    if head != h.base {
      assert head in h.node && h.node[head].cls == i;
      ListShape(h.mem, h.node, h.tab, h.base, head);
    }
    forall b {:trigger b in w} | b in h.k.free && b in h.k.size && h.k.size[b] >= 0 && Class(h.k.size[b]) == i
      ensures b in w {
      assert h.node[b].cls == Class(h.k.size[b]);
      OnItsList(h.mem, h.node, h.tab, h.base, b);
    }
    forall b {:trigger b in w} | b in w
      ensures b in h.k.free && b in h.k.size && h.k.size[b] >= 0 && Class(h.k.size[b]) == i {
      assert h.node[b].cls == Class(h.k.size[b]);
    }
  }

  // ----- tlsf_check and tlsf_check_pool -----

  function Insist(ok: bool): int { if ok then 0 else 1 }

  /** `tlsf_check`: the runtime checker counts no violation in a valid heap. */
  method Check(h: Heap) returns (status: int)
    requires h.Valid()
    ensures status == 0
  {
    hide Sound, SizeOf, FreeBit, PrevFreeBit, MappingInsert, Bit;
    status := 0;
    for i := 0 to FL_INDEX_COUNT
      invariant status == 0
    {
      for j := 0 to SL_INDEX_COUNT
        invariant status == 0
      {
        CheckRow(h, i, j);
        var flMap := Bit(h.fl, i);
        var slList := h.sl[i];
        var slMap := Bit(slList, j);
        var block := h.mem[Slot(h.base, 32 * i + j)];
        if !flMap {
          status := status - Insist(!slMap);
        }
        if !slMap {
          status := status - Insist(block == h.base);
        } else {
          status := status - Insist(slList != 0) - Insist(block != h.base);
          while block != h.base
            invariant status == 0
            invariant block == h.base || (block in h.node && h.node[block].cls == 32 * i + j)
            decreases if block == h.base then 0 else 1, if block == h.base then 0
              else h.node[block].rank - LowRank(h.node, h.node.Keys)
          {
            LowRankBelow(h.node, h.node.Keys, block);
            NextListed(h, block);
            CheckFlags(h, block, block + 8 + SizeOf(h.mem[block + 8]));
            CheckIndex(h, block, MappingInsert(SizeOf(h.mem[block + 8])));
            var next := block + 8 + SizeOf(h.mem[block + 8]);
            status := status - Insist(FreeBit(h.mem[block + 8]));
            status := status - Insist(!PrevFreeBit(h.mem[block + 8]));
            status := status - Insist(!FreeBit(h.mem[next + 8]));
            status := status - Insist(PrevFreeBit(h.mem[next + 8]));
            status := status - Insist(SizeOf(h.mem[block + 8]) >= BLOCK_SIZE_MIN);
            var m := MappingInsert(SizeOf(h.mem[block + 8]));
            status := status - Insist(m.fl == i && m.sl == j);
            block := h.mem[block + 16];
            if block != h.base {
              LowRankBelow(h.node, h.node.Keys, block);
            }
          }
        }
      }
    }
  }

  lemma {:induction false} CheckRow(h: Heap, i: nat, j: nat)
    requires h.Valid() && i < FL_INDEX_COUNT && j < SL_INDEX_COUNT
    ensures |h.sl| == FL_INDEX_COUNT && |h.tab| == LISTS && h.mem[Slot(h.base, 32 * i + j)] == h.tab[32 * i + j]
    ensures Bit(h.sl[i], j) <==> h.tab[32 * i + j] != h.base
    ensures Bit(h.sl[i], j) ==> h.sl[i] != 0
    ensures Bit(h.fl, i) <==> h.sl[i] != 0
    ensures h.tab[32 * i + j] != h.base ==> h.tab[32 * i + j] in h.node && h.node[h.tab[32 * i + j]].cls == 32 * i + j
  {
    assert h.mem[Slot(h.base, 32 * i + j)] == h.tab[32 * i + j];
    assert Bit(h.sl[i], j) <==> h.tab[32 * i + j] != h.base;
    if h.sl[i] == 0 {
      ShrZero(j);
    }
  }

  lemma {:induction false} CheckFlags(h: Heap, b: int, n: int)
    requires h.Valid() && b in h.node && n == b + 8 + SizeOf(h.mem[b + 8])
    ensures SizeOf(h.mem[b + 8]) >= BLOCK_SIZE_MIN
    ensures FreeBit(h.mem[b + 8]) && !PrevFreeBit(h.mem[b + 8]) && !FreeBit(h.mem[n + 8]) && PrevFreeBit(h.mem[n + 8])
  {
    hide Sound, SizeOf, FreeBit, PrevFreeBit;
    HeldBlock(h.mem, h.fl, h.sl, h.k, h.node, h.tab, h.base, h.last, b);
    FreeNeighbour(h.mem, h.fl, h.sl, h.k, h.node, h.tab, h.base, h.last, b);
    Reading(h.mem, h.fl, h.sl, h.k, h.node, h.tab, h.base, h.last, NOWHERE, b);
    Reading(h.mem, h.fl, h.sl, h.k, h.node, h.tab, h.base, h.last, NOWHERE, n);
  }

  lemma {:induction false} CheckIndex(h: Heap, b: int, i: Index)
    requires h.Valid() && b in h.node && SizeOf(h.mem[b + 8]) >= 0 && i == MappingInsert(SizeOf(h.mem[b + 8]))
    ensures i.sl < SL_INDEX_COUNT && h.node[b].cls == 32 * i.fl + i.sl
  {
    hide Sound, SizeOf, MappingInsert, Class;
    HeldBlock(h.mem, h.fl, h.sl, h.k, h.node, h.tab, h.base, h.last, b);
    ReadingFree(h.mem, h.fl, h.sl, h.k, h.node, h.tab, h.base, h.last, b, i);
  }

  lemma {:induction false} NextListed(h: Heap, b: int)
    requires h.Valid() && b in h.node
    ensures var q := h.mem[b + 16];
      q == h.node[b].next && (q == h.base
        || (q in h.node && h.node[q].cls == h.node[b].cls && h.node[q].rank < h.node[b].rank))
  {
    assert h.mem[b + 16] == h.node[b].next;
  }

  /** `tlsf_check_pool`: walking the pool, every previous-free bit matches the block just
      passed. */
  method CheckPool(h: Heap) returns (status: int)
    requires h.Valid()
    ensures status == 0
  {
    hide Sound, SizeOf, FreeBit, PrevFreeBit;
    status := 0;
    var prevFree := false;
    var block := h.base + 6528;
    PoolStart(h);
    while SizeOf(h.mem[block + 8]) != 0
      invariant status == 0 && block in h.k.size && (prevFree <==> block in h.k.prevFree)
      invariant SizeOf(h.mem[block + 8]) == h.k.size[block]
      decreases h.last - block
    {
      PoolStep(h, block);
      status := status - Insist(prevFree == PrevFreeBit(h.mem[block + 8]));
      prevFree := FreeBit(h.mem[block + 8]);
      block := block + 8 + SizeOf(h.mem[block + 8]);
    }
  }

  lemma {:induction false} PoolStart(h: Heap)
    requires h.Valid()
    ensures h.base + 6528 in h.k.size && h.base + 6528 !in h.k.prevFree
    ensures SizeOf(h.mem[h.base + 6536]) == h.k.size[h.base + 6528]
  {
    HeaderFacts(h.mem, h.k, h.base, h.last, NOWHERE, h.base + 6528);
  }

  lemma {:induction false} PoolStep(h: Heap, b: int)
    requires h.Valid() && b in h.k.size && h.k.size[b] != 0
    ensures PrevFreeBit(h.mem[b + 8]) == (b in h.k.prevFree) && FreeBit(h.mem[b + 8]) == (b in h.k.free)
    ensures var n := b + 8 + h.k.size[b];
      n in h.k.size && b < n <= h.last && (b in h.k.free <==> n in h.k.prevFree) && SizeOf(h.mem[n + 8]) == h.k.size[n]
  {
    HeaderFacts(h.mem, h.k, h.base, h.last, NOWHERE, b);
    HeaderFacts(h.mem, h.k, h.base, h.last, NOWHERE, Next(h.k.size, b));
  }

  // ----- a size realloc must not be given -----

  /** `block_trim_used` with size zero, for a block of 32 bytes or more: the split, the
      merge with the next block and the insertion of the rest. */
  function ZeroTrimmed(m: Mem, base: int, b: int): Mem
  {
    var rest := b + 8;
    var m1 := SetPrevUsed(Split(m, b, 0), rest);
    var next := rest + 8 + SizeOf(m1[rest + 8]);
    var m2 := if FreeBit(m1[next + 8]) then Absorb(RemoveM(m1, base, next, ClassOf(m1, next)), rest, next) else m1;
    InsertM(m2, base, rest, ClassOf(m2, rest))
  }

  /** The list for the size in the header of block b. */
  function ClassOf(m: Mem, b: int): int
  {
    if SizeOf(m[b + 8]) >= 0 then MappingInsert(SizeOf(m[b + 8])).Flat() else 0
  }

  /** With an adjusted size of zero, `tlsf_realloc` reaches `block_trim_used` with size
      zero, and a block of 32 bytes or more is split in the middle of its own header: its
      size word becomes zero and stays so, and no chain contains the block any more. */
  lemma {:induction false} OversizeReallocLosesBlock(h: Heap, b: int, size: nat, k': Blocks)
    requires h.Valid() && Used(h.k, b) && h.k.size[b] >= 32
    requires BLOCK_SIZE_MAX - 8 < size <= SIZE_MODULUS - 8
    ensures AdjustRequestSize(size, 3) == 0 && SizeOf(ZeroTrimmed(h.mem, h.base, b)[b + 8]) == 0
    ensures Chain(ZeroTrimmed(h.mem, h.base, b), k', h.base + 6528, h.last, NOWHERE) ==> b !in k'.size
  {
    AdjustWord(size);
    hide Sound, ZeroTrimmed, SizeOf, Chain;
    UsedNotLast(h.mem, h.fl, h.sl, h.k, h.node, h.tab, h.base, h.last, b);
    Reading(h.mem, h.fl, h.sl, h.k, h.node, h.tab, h.base, h.last, NOWHERE, b);
    ZeroWordStays(h, b);
    var m' := ZeroTrimmed(h.mem, h.base, b);
    if Chain(m', k', h.base + 6528, h.last, NOWHERE) && b in k'.size {
      HeaderFacts(m', k', h.base, h.last, NOWHERE, b);
    }
  }

  /** The zero split changes the header of b, the next word, and the header of the block
      after b. */
  ghost predicate ZeroSplitAt(m: Mem, m1: Mem, b: int, n: int)
  {
    && SizeOf(m1[b + 8]) == 0 && SizeOf(m1[b + 16]) == n - b - 16
    && SizeOf(m1[n + 8]) == SizeOf(m[n + 8]) && FreeBit(m1[n + 8]) == FreeBit(m[n + 8])
    && forall a {:trigger m1[a]} :: a != b + 8 && a != b + 16 && a != n && a != n + 8 ==> m1[a] == m[a]
  }

  lemma {:induction false} ZeroSplitIs(m: Mem, b: int, n: int)
    requires SizeOf(m[b + 8]) == n - b - 8 && n - b - 8 >= 32 && (n - b - 8) % 8 == 0
    ensures ZeroSplitAt(m, SetPrevUsed(Split(m, b, 0), b + 8), b, n)
  {
    hide SizeOf, WithSize, WithFree, WithPrevFree, WithPrevUsed, FreeBit, PrevFreeBit, Pack;
    var rest := b + 8;
    var m2 := SetSize(SetSize(m, rest, n - b - 16), b, 0);
    ResizedWord(m[b + 8], 0);
    ResizedWord(m[rest + 8], n - b - 16);
    assert NextAt(m2, rest) == n;
    FlagWords(m[n + 8]);
    FlagWords(m2[rest + 8]);
    FlagWords(WithFree(m2[rest + 8]));
  }

  lemma {:induction false} FlagWords(w: int)
    ensures SizeOf(WithFree(w)) == SizeOf(w) && SizeOf(WithPrevFree(w)) == SizeOf(w)
      && SizeOf(WithPrevUsed(w)) == SizeOf(w)
    ensures FreeBit(WithPrevFree(w)) == FreeBit(w)
  {
    hide SizeOf, FreeBit, PrevFreeBit;
    var q := w / 4;
    FourWord(q, 0);
    FourWord(q, 1);
    FourWord(q, 2);
    FourWord(q, 3);
    assert w == 4 * q + w % 4;
  }

  lemma {:induction false} FourWord(q: int, r: int)
    requires 0 <= r < 4
    ensures SizeOf(4 * q + r) == 4 * q && FreeBit(4 * q + r) == (r % 2 == 1) && PrevFreeBit(4 * q + r) == (r / 2 == 1)
  {
    LowBits(q, r);
  }

  /** What a list link or a list head may be. */
  ghost predicate Listed(h: Heap, x: int)
    reads h
  {
    x == h.base || x in h.node
  }

  /** The link words of listed blocks are apart from the words of the zero split. */
  lemma {:induction false} LinksApart(h: Heap, b: int, x: int)
    requires h.Valid() && Used(h.k, b) && Listed(h, x)
    ensures x + 24 < b + 8 || Next(h.k.size, b) + 8 < x + 16
  {
    hide Links, Maps, Headers, BackLinks, Lists;
    var n := Next(h.k.size, b);
    if x in h.node {
      assert x in h.k.free && x != b;
      assert x < b ==> x + 8 + h.k.size[x] <= b;
      assert b < x ==> n <= x;
    }
  }

  /** The list links and heads are still those of the heap after the zero split. */
  lemma {:induction false} LinksRead(h: Heap, m1: Mem, b: int, x: int, i: int)
    requires h.Valid() && Used(h.k, b) && ZeroSplitAt(h.mem, m1, b, Next(h.k.size, b))
    ensures x in h.node ==> Listed(h, m1[x + 16]) && Listed(h, m1[x + 24])
    ensures 0 <= i < LISTS ==> Listed(h, m1[Slot(h.base, i)])
  {
    Reading(h.mem, h.fl, h.sl, h.k, h.node, h.tab, h.base, h.last, NOWHERE, b);
    hide Maps, Chain, ZeroSplitAt, Filed;
    var n := Next(h.k.size, b);
    if x in h.node {
      LinksApart(h, b, x);
      SplitKeeps(h.mem, m1, b, n, x + 16);
      SplitKeeps(h.mem, m1, b, n, x + 24);
      assert h.mem[x + 16] == h.node[x].next && h.mem[x + 24] == h.node[x].prev;
    }
    if 0 <= i < LISTS {
      SplitKeeps(h.mem, m1, b, n, Slot(h.base, i));
      assert h.mem[Slot(h.base, i)] == h.tab[i];
    }
  }

  lemma {:induction false} SplitKeeps(m: Mem, m1: Mem, b: int, n: int, a: int)
    requires ZeroSplitAt(m, m1, b, n) && a != b + 8 && a != b + 16 && a != n && a != n + 8
    ensures m1[a] == m[a]
  {
  }

  /** The merge with the next block. */
  lemma {:induction false} ZeroMerge(h: Heap, m1: Mem, b: int, c: int)
    requires h.Valid() && Used(h.k, b) && ZeroSplitAt(h.mem, m1, b, Next(h.k.size, b)) && h.k.size[b] >= 32
    requires Next(h.k.size, b) in h.node && 0 <= c < LISTS
    ensures var n := Next(h.k.size, b);
      var m2 := Absorb(RemoveM(m1, h.base, n, c), b + 8, n);
      && m2[b + 8] == m1[b + 8] && SizeOf(m2[b + 16]) == n - b - 8 + SizeOf(m1[n + 8])
      && forall i :: 0 <= i < LISTS ==> Listed(h, m2[Slot(h.base, i)])
  {
    hide Sound, ZeroSplitAt, SizeOf, Listed, RemoveM, Absorb, Slot;
    var n := Next(h.k.size, b);
    var q, p, mr := m1[n + 16], m1[n + 24], RemoveM(m1, h.base, n, c);
    LinksRead(h, m1, b, n, 0);
    UsedNotLast(h.mem, h.fl, h.sl, h.k, h.node, h.tab, h.base, h.last, b);
    LinksApart(h, b, q);
    LinksApart(h, b, p);
    Reading(h.mem, h.fl, h.sl, h.k, h.node, h.tab, h.base, h.last, NOWHERE, b);
    Reading(h.mem, h.fl, h.sl, h.k, h.node, h.tab, h.base, h.last, NOWHERE, n);
    RemoveSameAt(m1, h.base, n, c, q, p, b + 8);
    RemoveSameAt(m1, h.base, n, c, q, p, b + 16);
    RemoveSameAt(m1, h.base, n, c, q, p, n + 8);
    SplitWords(h.mem, m1, b, n);
    AbsorbAt(mr, b + 8, n, h.base);
    forall i | 0 <= i < LISTS ensures Listed(h, mr[Slot(h.base, i)]) {
      LinksRead(h, m1, b, n, i);
      RemoveHead(h, m1, n, c, q, p, i);
    }
  }

  lemma {:induction false} SplitWords(m: Mem, m1: Mem, b: int, n: int)
    requires ZeroSplitAt(m, m1, b, n)
    ensures SizeOf(m1[b + 16]) == n - b - 16 && SizeOf(m1[n + 8]) == SizeOf(m[n + 8])
  {
  }

  /** A head is what it was, or the block after the one removed. */
  lemma {:induction false} RemoveHead(h: Heap, m: Mem, n: int, c: int, q: int, p: int, i: int)
    requires 0 <= i < LISTS && 0 <= c < LISTS && q == m[n + 16] && p == m[n + 24] && Listed(h, q) && Listed(h, p)
    requires h.Valid() && Listed(h, m[Slot(h.base, i)])
    ensures Listed(h, RemoveM(m, h.base, n, c)[Slot(h.base, i)])
  {
    hide Links, Maps, Headers, BackLinks, Lists, Flags;
    assert q in h.node ==> q in h.k.size;
    assert p in h.node ==> p in h.k.size;
  }

  lemma {:induction false} AbsorbAt(m: Mem, p: int, b: int, base: int)
    requires SizeOf(m[p + 8]) >= 0 && SizeOf(m[b + 8]) >= 0 && SizeOf(m[b + 8]) % 8 == 0 && base + 6528 < p
    ensures Absorb(m, p, b)[p] == m[p] && SizeOf(Absorb(m, p, b)[p + 8]) == SizeOf(m[p + 8]) + SizeOf(m[b + 8]) + 8
    ensures forall i :: 0 <= i < LISTS ==> Absorb(m, p, b)[Slot(base, i)] == m[Slot(base, i)]
  {
    hide SizeOf;
    AddSize(m[p + 8], SizeOf(m[b + 8]) + 8);
  }

  lemma {:induction false} AddSize(w: int, s: int)
    requires s % 8 == 0
    ensures SizeOf(w + s) == SizeOf(w) + s
  {
    var q, r := w / 4, w % 4;
    FourWord(q, r);
    FourWord(q + 2 * (s / 8), r);
    hide SizeOf;
    assert w == 4 * q + r && w + s == 4 * (q + 2 * (s / 8)) + r;
  }

  /** The word of the zero size is not written again. */
  lemma {:induction false} ZeroWordStays(h: Heap, b: int)
    requires h.Valid() && Used(h.k, b) && h.k.size[b] >= 32
    ensures SizeOf(ZeroTrimmed(h.mem, h.base, b)[b + 8]) == 0
  {
    hide Sound, SizeOf, Listed, RemoveM, Absorb, Slot, ZeroSplitAt, Split, SetPrevUsed, InsertM, ClassOf, FreeBit;
    var n, rest := Next(h.k.size, b), b + 8;
    UsedNotLast(h.mem, h.fl, h.sl, h.k, h.node, h.tab, h.base, h.last, b);
    Reading(h.mem, h.fl, h.sl, h.k, h.node, h.tab, h.base, h.last, NOWHERE, b);
    Reading(h.mem, h.fl, h.sl, h.k, h.node, h.tab, h.base, h.last, NOWHERE, n);
    ZeroSplitIs(h.mem, b, n);
    var m1 := SetPrevUsed(Split(h.mem, b, 0), rest);
    ZeroSplitWords(h.mem, m1, b, n);
    var m2 := m1;
    if FreeBit(m1[n + 8]) {
      SizeClass(m1, n, h.k.size[n]);
      ZeroMerge(h, m1, b, ClassOf(m1, n));
      m2 := Absorb(RemoveM(m1, h.base, n, ClassOf(m1, n)), rest, n);
      PairBound(h, b);
      SizeClass(m2, rest, h.k.size[b] + h.k.size[n]);
    } else {
      forall i | 0 <= i < LISTS ensures Listed(h, m1[Slot(h.base, i)]) { LinksRead(h, m1, b, b, i); }
      SizeClass(m2, rest, h.k.size[b] - 8);
    }
    var head := m2[Slot(h.base, ClassOf(m2, rest))];
    LinksApart(h, b, head);
    InsertSameAt(m2, h.base, rest, ClassOf(m2, rest), head, b + 8);
  }

  lemma {:induction false} PairBound(h: Heap, b: int)
    requires h.Valid() && Used(h.k, b) && Next(h.k.size, b) in h.k.free
    ensures Next(h.k.size, b) in h.k.size && h.k.size[b] + h.k.size[Next(h.k.size, b)] < BLOCK_SIZE_MAX
  {
    hide Lists, Filed, Links, Maps, Headers, BackLinks;
  }

  lemma {:induction false} ZeroSplitWords(m: Mem, m1: Mem, b: int, n: int)
    requires ZeroSplitAt(m, m1, b, n)
    ensures SizeOf(m1[b + 8]) == 0 && SizeOf(m1[b + 16]) == n - b - 16
    ensures SizeOf(m1[n + 8]) == SizeOf(m[n + 8]) && FreeBit(m1[n + 8]) == FreeBit(m[n + 8])
  {
  }

  lemma {:induction false} SizeClass(m: Mem, b: int, size: int)
    requires SizeOf(m[b + 8]) == size && 0 <= size < BLOCK_SIZE_MAX
    ensures 0 <= ClassOf(m, b) < LISTS
  {
    MappingInsertRange(size);
  }

  /** `tlsf_realloc` compares the adjusted size with the block. For every size the heap cannot
      serve the adjusted size passes that test although the block is too small, and for every
      other size it covers the request. */
  lemma {:induction false} OversizeReallocInPlace(h: Heap, b: int, size: nat)
    requires h.Valid() && Used(h.k, b) && 0 < size < SIZE_MODULUS
    ensures AdjustRequestSize(size, 3) < size <==> size > BLOCK_SIZE_MAX - 8
    ensures size > BLOCK_SIZE_MAX - 8 ==> AdjustRequestSize(size, 3) <= h.k.size[b] < size
  {
    hide AdjustRequestSize;
    if size + 8 <= SIZE_MODULUS {
      AdjustWord(size);
    } else {
      AdjustWordWraps(size);
    }
    LiveSize(h, b);
  }

  lemma {:induction false} LiveSize(h: Heap, b: int)
    requires h.Valid() && Used(h.k, b)
    ensures BLOCK_SIZE_MIN <= h.k.size[b] <= BLOCK_SIZE_MAX - 8
  {
    hide Lists, Filed, Links, Maps, Headers, BackLinks, Flags;
  }

  lemma {:induction false} ResizedWord(w: int, s: int)
    requires s % 8 == 0
    ensures SizeOf(WithSize(w, s)) == s
  {
    PackGarbage(w, s);
    PackRead(s, FreeBit(w), PrevFreeBit(w));
  }

  // ----- whole runs -----

  datatype Command =
    | CMalloc(size: nat)
    | CMemalign(j: nat, size: nat)
    | CFree(p: int)
    | CRealloc(p: int, size: nat)
    | CStore(p: int, w: nat, v: int)

  predicate Sensible(c: Command)
  {
    match c
    case CMalloc(size) => size <= SIZE_MODULUS - 8
    case CMemalign(j, size) => j <= 62 && size <= SIZE_MODULUS - 8
    case CFree(p) => true
    case CRealloc(p, size) => size <= BLOCK_SIZE_MAX - 8
    case CStore(p, w, v) => true
  }

  /** What callers hold: for every pointer the bytes they asked for. */
  type Holdings = map<int, seq<int>>

  /** A new buffer of n bytes that overlaps no other, or nothing. */
  ghost predicate Obtained(live: Holdings, live': Holdings, p: int, n: nat)
  {
    if p == 0 then live' == live else p !in live && p in live' && |live'[p]| == n && live' == live[p := live'[p]]
  }

  /** Word w of a buffer overwritten. */
  function Stored(s: seq<int>, w: nat, v: int): (r: seq<int>)
    ensures |r| == |s|
  {
    seq(|s|, i requires 0 <= i < |s| => if 8 * w <= i < 8 * w + 8 then Byte(v, i - 8 * w) else s[i])
  }

  /** What a command does to the holdings, with the pointer it returns. */
  ghost predicate Effect(c: Command, live: Holdings, live': Holdings, p: int)
  {
    match c
    case CMalloc(size) => Obtained(live, live', p, size)
    case CMemalign(j, size) => Obtained(live, live', p, size) && (p > 0 ==> Aligned(p, j))
    case CFree(q) => live' == live - {q}
    case CRealloc(q, size) =>
      if q == 0 then Obtained(live, live', p, size)
      else if q !in live then live' == live
      else if size == 0 then live' == live - {q}
      else if p == 0 then live' == live
      else
        && (p == q || p !in live) && p in live' && live' == (live - {q})[p := live'[p]]
        && |live'[p]| == size && forall i :: 0 <= i < size && i < |live[q]| ==> live'[p][i] == live[q][i]
    case CStore(q, w, v) => live' == if q in live && 8 * w + 8 <= |live[q]| then live[q := Stored(live[q], w, v)]
      else live
  }

  /** The holdings are exactly the used blocks, and memory has their bytes. */
  ghost predicate Agrees(m: Mem, k: Blocks, live: Holdings)
  {
    && (forall u {:trigger Used(k, u)} :: Used(k, u) ==> u + 16 in live)
    && (forall p {:trigger p in live} :: p in live ==> Used(k, p - 16) && |live[p]| <= k.size[p - 16])
    && (forall p, i: nat {:trigger ByteAt(m, p, i), p in live} :: p in live && i < |live[p]| ==>
         ByteAt(m, p, i) == live[p][i])
  }

  function Contents(m: Mem, p: int, n: nat): (s: seq<int>)
    ensures |s| == n && forall i :: 0 <= i < n ==> s[i] == ByteAt(m, p, i)
  {
    seq(n, i requires 0 <= i => ByteAt(m, p, i))
  }

  /** The bytes of a block that a command keeps. */
  lemma {:induction false} BytesKept(m: Mem, k: Blocks, m': Mem, k': Blocks, b: int, u: int, i: nat)
    requires Kept(m, k, m', k', b) && Used(k, u) && u != b && i < k.size[u]
    ensures ByteAt(m', u + 16, i) == ByteAt(m, u + 16, i)
  {
    hide Byte;
    assert m'[u + 16 + (i - i % 8)] == m[u + 16 + (i - i % 8)];
  }

  /** Apart from buffer p, the holdings stay in memory. */
  ghost predicate Remain(m: Mem, k: Blocks, live: Holdings, m': Mem, k': Blocks)
  {
    forall p {:trigger p in live} :: p in live ==>
      Used(k', p - 16) && |live[p]| <= k'.size[p - 16] && forall i: nat {:trigger ByteAt(m', p, i)} ::
        i < |live[p]| ==> ByteAt(m', p, i) == ByteAt(m, p, i)
  }

  lemma {:induction false} KeptRemain(m: Mem, k: Blocks, m': Mem, k': Blocks, live: Holdings, b: int)
    requires Agrees(m, k, live) && Kept(m, k, m', k', b)
    ensures Remain(m, k, live - {b + 16}, m', k')
  {
    hide ByteAt;
    var rest := live - {b + 16};
    forall p {:trigger p in rest} | p in rest
      ensures Used(k', p - 16) && |rest[p]| <= k'.size[p - 16] && forall i: nat {:trigger ByteAt(m', p, i)} ::
        i < |rest[p]| ==> ByteAt(m', p, i) == ByteAt(m, p, i)
    {
      assert p in live && Used(k, p - 16);
      forall i: nat {:trigger ByteAt(m', p, i)} | i < |rest[p]| ensures ByteAt(m', p, i) == ByteAt(m, p, i) {
        BytesKept(m, k, m', k', b, p - 16, i);
      }
    }
  }

  lemma {:induction false} KeptButRemain(m: Mem, k: Blocks, m': Mem, k': Blocks, live: Holdings, b: int, c: int)
    requires Agrees(m, k, live) && KeptBut(m, k, m', k', b, c)
    ensures Remain(m, k, live - {b + 16, c + 16}, m', k')
  {
    hide ByteAt;
    var rest := live - {b + 16, c + 16};
    forall p {:trigger p in rest} | p in rest
      ensures Used(k', p - 16) && |rest[p]| <= k'.size[p - 16] && forall i: nat {:trigger ByteAt(m', p, i)} ::
        i < |rest[p]| ==> ByteAt(m', p, i) == ByteAt(m, p, i)
    {
      assert p in live && Used(k, p - 16);
      forall i: nat {:trigger ByteAt(m', p, i)} | i < |rest[p]| ensures ByteAt(m', p, i) == ByteAt(m, p, i) {
        BytesKeptBut(m, k, m', k', b, c, p - 16, i);
      }
    }
  }

  /** What remains, and a buffer with what memory has there. */
  lemma {:induction false} AgreesWith(m: Mem, k: Blocks, live: Holdings, m': Mem, k': Blocks, rest: Holdings, c: int,
      n: nat)
    requires Agrees(m, k, live) && Remain(m, k, rest, m', k') && rest.Keys <= live.Keys
      && (forall p {:trigger p in rest} :: p in rest ==> rest[p] == live[p])
    requires (forall u {:trigger Used(k', u)} :: Used(k', u) ==> u == c || u + 16 in rest) && Used(k', c)
      && n <= k'.size[c]
    ensures Agrees(m', k', rest[c + 16 := Contents(m', c + 16, n)])
  {
    hide ByteAt, Used, Contents;
    var live' := rest[c + 16 := Contents(m', c + 16, n)];
    forall p, i: nat {:trigger ByteAt(m', p, i), p in live'} | p in live' && i < |live'[p]|
      ensures ByteAt(m', p, i) == live'[p][i] {
      if p != c + 16 {
        assert p in rest && p in live && ByteAt(m, p, i) == live[p][i];
      }
    }
  }

  lemma {:induction false} AgreesAlloc(m: Mem, k: Blocks, m': Mem, k': Blocks, live: Holdings, b: int, n: nat)
    requires Agrees(m, k, live) && Kept(m, k, m', k', b) && Used(k', b) && n <= k'.size[b]
    ensures Agrees(m', k', live[b + 16 := Contents(m', b + 16, n)])
  {
    hide ByteAt, Contents, Remain;
    var rest := live - {b + 16};
    KeptRemain(m, k, m', k', live, b);
    forall u {:trigger Used(k', u)} | Used(k', u) ensures u == b || u + 16 in rest {
      assert u != b ==> Used(k, u);
    }
    AgreesWith(m, k, live, m', k', rest, b, n);
    assert rest[b + 16 := Contents(m', b + 16, n)] == live[b + 16 := Contents(m', b + 16, n)];
  }

  lemma {:induction false} AgreesFree(m: Mem, k: Blocks, m': Mem, k': Blocks, live: Holdings, b: int)
    requires Agrees(m, k, live) && Kept(m, k, m', k', b) && !Used(k', b)
    ensures Agrees(m', k', live - {b + 16})
  {
    hide ByteAt;
    var rest := live - {b + 16};
    KeptRemain(m, k, m', k', live, b);
    forall u {:trigger Used(k', u)} | Used(k', u) ensures u + 16 in rest {
      assert Used(k, u);
    }
    forall p, i: nat {:trigger ByteAt(m', p, i), p in rest} | p in rest && i < |rest[p]|
      ensures ByteAt(m', p, i) == rest[p][i] {
      assert p in live && ByteAt(m, p, i) == live[p][i];
    }
  }

  lemma {:induction false} AgreesMove(m: Mem, k: Blocks, m': Mem, k': Blocks, live: Holdings, b: int, c: int, n: nat)
    requires Agrees(m, k, live) && KeptBut(m, k, m', k', b, c) && b != c
    requires !Used(k', b) && Used(k', c) && n <= k'.size[c]
    ensures Agrees(m', k', (live - {b + 16})[c + 16 := Contents(m', c + 16, n)])
  {
    hide ByteAt, Contents, Remain;
    var rest := live - {b + 16, c + 16};
    KeptButRemain(m, k, m', k', live, b, c);
    forall u {:trigger Used(k', u)} | Used(k', u) ensures u == c || u + 16 in rest {
      assert u != c ==> Used(k, u);
    }
    AgreesWith(m, k, live, m', k', rest, c, n);
    assert rest[c + 16 := Contents(m', c + 16, n)] == (live - {b + 16})[c + 16 := Contents(m', c + 16, n)];
  }

  lemma {:induction false} BytesKeptBut(m: Mem, k: Blocks, m': Mem, k': Blocks, b: int, c: int, u: int, i: nat)
    requires KeptBut(m, k, m', k', b, c) && Used(k, u) && u != b && u != c && i < k.size[u]
    ensures ByteAt(m', u + 16, i) == ByteAt(m, u + 16, i)
  {
    hide Byte;
    assert m'[u + 16 + (i - i % 8)] == m[u + 16 + (i - i % 8)];
  }

  /** The bytes that a realloc carries over. */
  lemma {:induction false} CarriedOver(m: Mem, k: Blocks, m': Mem, live: Holdings, q: int, p: int, n: nat)
    requires Agrees(m, k, live) && q in live && BytesMoved(m, m', q, p, Min(k.size[q - 16], n))
    ensures forall i :: 0 <= i < n && i < |live[q]| ==> Contents(m', p, n)[i] == live[q][i]
  {
    hide ByteAt;
    forall i | 0 <= i < n && i < |live[q]| ensures Contents(m', p, n)[i] == live[q][i] {
      assert ByteAt(m, q, i) == live[q][i];
      assert ByteAt(m', p, i) == ByteAt(m, q, i);
    }
  }

  lemma {:induction false} AgreesStore(m: Mem, k: Blocks, live: Holdings, p: int, w: nat, v: int)
    requires Agrees(m, k, live) && p in live && 8 * w + 8 <= |live[p]|
    requires Kept(m, k, m[p + 8 * w := v], k, p - 16)
    ensures Agrees(m[p + 8 * w := v], k, live[p := Stored(live[p], w, v)])
  {
    hide ByteAt, Stored;
    var m', live' := m[p + 8 * w := v], live[p := Stored(live[p], w, v)];
    forall q {:trigger q in live'} | q in live' ensures Used(k, q - 16) && |live'[q]| <= k.size[q - 16] {
      assert q in live;
    }
    forall q, i: nat {:trigger ByteAt(m', q, i), q in live'} | q in live' && i < |live'[q]|
      ensures ByteAt(m', q, i) == live'[q][i] {
      assert q in live && ByteAt(m, q, i) == live[q][i];
      if q != p {
        BytesKept(m, k, m', k, p - 16, q - 16, i);
      } else {
        StoredByte(m, p, w, v, i, live[p]);
      }
    }
  }

  lemma {:induction false} StoredByte(m: Mem, p: int, w: nat, v: int, i: nat, s: seq<int>)
    requires i < |s| && ByteAt(m, p, i) == s[i]
    ensures ByteAt(m[p + 8 * w := v], p, i) == Stored(s, w, v)[i]
  {
    hide Byte;
    if i - i % 8 == 8 * w {
      assert i % 8 == i - 8 * w;
    }
  }

  lemma {:induction false} AgreesFresh(h: Heap)
    requires h.Valid() && h.k.free == {h.base + 6528} && h.k.size.Keys == {h.base + 6528, h.last}
    ensures Agrees(h.mem, h.k, map[])
  {
  }

  lemma {:induction false} LivePointer(h: Heap, live: Holdings, p: int)
    requires h.Valid() && Agrees(h.mem, h.k, live) && p in live
    ensures Used(h.k, p - 16) && p > 16 && |live[p]| <= h.k.size[p - 16]
  {
  }

  lemma {:induction false} NewPointer(m: Mem, k: Blocks, live: Holdings, p: int)
    requires Agrees(m, k, live) && !Used(k, p - 16)
    ensures p !in live
  {
    hide ByteAt, Used;
  }

  /** Any run of commands on a fresh heap: the heap stays valid and acts as a plain store of
      buffers. Every buffer keeps the bytes written to it until it is freed, whatever else is
      allocated, resized and freed meanwhile. */
  method Session(m: Mem, start: int, bytes: nat, cmds: seq<Command>)
      returns (h: Heap, ptrs: seq<int>, run: seq<Holdings>)
    requires 0 < start && start % 8 == 0 && start + bytes + BLOCK_SIZE_MAX <= SIZE_MODULUS
    requires BLOCK_SIZE_MIN <= PoolBytes(bytes) < BLOCK_SIZE_MAX
    requires forall i :: 0 <= i < |cmds| ==> Sensible(cmds[i])
    ensures |ptrs| == |cmds| && |run| == |cmds| + 1 && run[0] == map[]
    ensures forall i {:trigger run[i + 1]} :: 0 <= i < |cmds| ==> Effect(cmds[i], run[i], run[i + 1], ptrs[i])
    ensures h.Valid() && Agrees(h.mem, h.k, run[|cmds|]) && Outside(m, h.mem, h.base, h.last)
  {
    hide Sound, Kept, KeptBut, AdjustRequestSize, MappingSearch, Outside, Agrees, Effect;
    h := new Heap(m, start, bytes);
    ptrs, run := [], [map[]];
    AgreesFresh(h);
    for i := 0 to |cmds|
      invariant fresh(h) && h.Valid() && h.last + 16 + BLOCK_SIZE_MAX <= SIZE_MODULUS
      invariant |ptrs| == i && |run| == i + 1 && run[0] == map[]
      invariant forall j {:trigger run[j + 1]} :: 0 <= j < i ==> Effect(cmds[j], run[j], run[j + 1], ptrs[j])
      invariant Agrees(h.mem, h.k, run[i]) && Outside(m, h.mem, h.base, h.last)
    {
      var p, live := Execute(h, cmds[i], run[i], m);
      ptrs, run := ptrs + [p], run + [live];
    }
  }

  /** One command; pointers that no one holds are left alone. */
  method Execute(h: Heap, c: Command, live: Holdings, ghost m: Mem) returns (p: int, live': Holdings)
    requires h.Valid() && h.last + 16 + BLOCK_SIZE_MAX <= SIZE_MODULUS && Sensible(c)
    requires Agrees(h.mem, h.k, live) && Outside(m, h.mem, h.base, h.last)
    modifies h
    ensures h.Valid() && Agrees(h.mem, h.k, live') && Outside(m, h.mem, h.base, h.last)
    ensures Effect(c, live, live', p)
  {
    hide Sound, Kept, KeptBut, AdjustRequestSize, MappingSearch, Outside, Agrees, Obtained, Contents, Stored;
    p, live' := 0, live;
    match c
    case CMalloc(size) =>
      p, live' := Obtain(h, c, live, m);
    case CMemalign(j, size) =>
      p, live' := Obtain(h, c, live, m);
    case CFree(q) =>
      if q in live {
        live' := Release(h, q, live, m);
      }
    case CRealloc(q, size) =>
      if q == 0 {
        NullHeld(h, live);
        p, live' := Obtain(h, c, live, m);
      } else if q in live {
        p, live' := Regrow(h, q, size, live, m);
      }
    case CStore(q, w, v) =>
      if q in live && 8 * w + 8 <= |live[q]| {
        live' := Overwrite(h, q, w, v, live, m);
      }
  }

  lemma {:induction false} NullHeld(h: Heap, live: Holdings)
    requires h.Valid() && Agrees(h.mem, h.k, live)
    ensures 0 !in live
  {
    if 0 in live {
      LivePointer(h, live, 0);
    }
  }

  /** The commands that make a new buffer. */
  method Obtain(h: Heap, c: Command, live: Holdings, ghost m: Mem) returns (p: int, live': Holdings)
    requires h.Valid() && h.last + 16 + BLOCK_SIZE_MAX <= SIZE_MODULUS && Sensible(c)
    requires Agrees(h.mem, h.k, live) && Outside(m, h.mem, h.base, h.last)
    requires c.CMalloc? || c.CMemalign? || (c.CRealloc? && c.p == 0)
    modifies h
    ensures h.Valid() && Agrees(h.mem, h.k, live') && Outside(m, h.mem, h.base, h.last)
    ensures Obtained(live, live', p, c.size) && (c.CMemalign? && p > 0 ==> Aligned(p, c.j))
  {
    hide Sound, Kept, KeptBut, AdjustRequestSize, MappingSearch, Outside, Agrees, Contents, Aligned;
    ghost var m0, k0 := h.mem, h.k;
    if c.CMalloc? {
      p := h.Malloc(c.size);
    } else if c.CMemalign? {
      p := h.Memalign(c.j, c.size);
    } else {
      p := h.Realloc(0, c.size);
    }
    OutsideTrans(m, m0, h.mem, h.base, h.last);
    live' := live;
    if p != 0 {
      NewPointer(m0, k0, live, p);
      AgreesAlloc(m0, k0, h.mem, h.k, live, p - 16, c.size);
      live' := live[p := Contents(h.mem, p, c.size)];
      assert |Contents(h.mem, p, c.size)| == c.size;
    }
  }

  method Release(h: Heap, q: int, live: Holdings, ghost m: Mem) returns (live': Holdings)
    requires h.Valid() && Agrees(h.mem, h.k, live) && Outside(m, h.mem, h.base, h.last) && q in live
    modifies h
    ensures h.Valid() && Agrees(h.mem, h.k, live') && Outside(m, h.mem, h.base, h.last)
    ensures live' == live - {q}
  {
    hide Sound, Kept, Outside, Agrees;
    ghost var m0, k0 := h.mem, h.k;
    LivePointer(h, live, q);
    h.Free(q);
    OutsideTrans(m, m0, h.mem, h.base, h.last);
    AgreesFree(m0, k0, h.mem, h.k, live, q - 16);
    live' := live - {q};
  }

  method Overwrite(h: Heap, q: int, w: nat, v: int, live: Holdings, ghost m: Mem) returns (live': Holdings)
    requires h.Valid() && Agrees(h.mem, h.k, live) && Outside(m, h.mem, h.base, h.last) && q in live
      && 8 * w + 8 <= |live[q]|
    modifies h
    ensures h.Valid() && Agrees(h.mem, h.k, live') && Outside(m, h.mem, h.base, h.last)
    ensures live' == live[q := Stored(live[q], w, v)]
  {
    hide Sound, Kept, Outside, Agrees, Stored;
    ghost var m0, k0 := h.mem, h.k;
    LivePointer(h, live, q);
    h.Store(q - 16, q + 8 * w, v);
    OutsideTrans(m, m0, h.mem, h.base, h.last);
    AgreesStore(m0, k0, live, q, w, v);
    live' := live[q := Stored(live[q], w, v)];
  }

  method Regrow(h: Heap, q: int, size: nat, live: Holdings, ghost m: Mem) returns (p: int, live': Holdings)
    requires h.Valid() && Agrees(h.mem, h.k, live) && Outside(m, h.mem, h.base, h.last) && q in live
      && size <= BLOCK_SIZE_MAX - 8
    modifies h
    ensures h.Valid() && Agrees(h.mem, h.k, live') && Outside(m, h.mem, h.base, h.last)
    ensures q != 0 && Effect(CRealloc(q, size), live, live', p)
  {
    hide Sound, Kept, KeptBut, Outside, Agrees, BytesMoved, Contents;
    ghost var m0, k0 := h.mem, h.k;
    LivePointer(h, live, q);
    p := h.Realloc(q, size);
    OutsideTrans(m, m0, h.mem, h.base, h.last);
    live' := live;
    if size == 0 {
      AgreesFree(m0, k0, h.mem, h.k, live, q - 16);
      live' := live - {q};
    } else if p != 0 {
      CarriedOver(m0, k0, h.mem, live, q, p, size);
      assert |Contents(h.mem, p, size)| == size;
      if p == q {
        AgreesAlloc(m0, k0, h.mem, h.k, live, q - 16, size);
        live' := live[q := Contents(h.mem, q, size)];
        assert live' == (live - {q})[q := live'[q]];
      } else {
        NewPointer(m0, k0, live, p);
        AgreesMove(m0, k0, h.mem, h.k, live, q - 16, p - 16, size);
        live' := (live - {q})[p := Contents(h.mem, p, size)];
      }
    }
  }
}
