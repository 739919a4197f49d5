/** Memory image of a TLSF heap and the invariant its operations keep.

    The heap lives in one word-addressed memory, as in the source: the control block
    (null block, bitmaps, table of list heads), then the pool. A block header sits at a
    multiple of eight, eight bytes before its own size word:

      b       prev_phys_block, which is also the last payload word of the block before b
      b + 8   size and flags
      b + 16  payload; next_free and prev_free while the block is free

    The words of the pool are plain numbers; the ghost maps `blk` and `node` say what
    the allocator takes them to mean. */
module TlsfState {
  import opened TlsfMap

  ghost predicate Total(m: imap<int, int>) { forall a: int :: a in m }

  /** Every eight-byte word, by the address of its first byte. */
  type Mem = m: imap<int, int> | Total(m) ghost witness imap a: int | true :: 0

  // ----- header words -----

  /** The header word of a block: bit 0 is the free bit, bit 1 the previous-free bit. */
  function Pack(size: int, free: bool, prevFree: bool): (w: int)
  {
    size + (if free then 1 else 0) + (if prevFree then 2 else 0)
  }

  function SizeOf(w: int): (r: int) { w - w % 4 }
  predicate FreeBit(w: int) { w % 2 == 1 }
  predicate PrevFreeBit(w: int) { (w / 2) % 2 == 1 }

  function WithSize(w: int, size: int): (r: int) { size + w % 4 }
  function WithFree(w: int): (r: int) { if FreeBit(w) then w else w + 1 }
  function WithUsed(w: int): (r: int) { if FreeBit(w) then w - 1 else w }
  function WithPrevFree(w: int): (r: int) { if PrevFreeBit(w) then w else w + 2 }
  function WithPrevUsed(w: int): (r: int) { if PrevFreeBit(w) then w - 2 else w }

  lemma {:induction false} LowBits(q: int, r: int)
    requires 0 <= r < 4
    ensures (4 * q + r) % 4 == r && (4 * q + r) % 2 == r % 2
    ensures ((4 * q + r) / 2) % 2 == r / 2
  {
    assert (4 * q + r) / 2 == 2 * q + r / 2;
  }

  /** Reading one part of a header word is not disturbed by the other parts. */
  lemma {:induction false} PackRead(size: int, free: bool, prevFree: bool)
    requires size % 8 == 0
    ensures var w := Pack(size, free, prevFree);
      && SizeOf(w) == size && FreeBit(w) == free && PrevFreeBit(w) == prevFree
      && w % 4 == (if free then 1 else 0) + (if prevFree then 2 else 0)
  {
    LowBits(2 * (size / 8), (if free then 1 else 0) + (if prevFree then 2 else 0));
  }

  /** Reading and rewriting one part of a header word leaves the other parts alone. */
  lemma {:induction false} PackParts(size: int, free: bool, prevFree: bool)
    requires size % 8 == 0
    ensures var w := Pack(size, free, prevFree);
      && SizeOf(w) == size && FreeBit(w) == free && PrevFreeBit(w) == prevFree
      && WithFree(w) == Pack(size, true, prevFree)
      && WithUsed(w) == Pack(size, false, prevFree)
      && WithPrevFree(w) == Pack(size, free, true)
      && WithPrevUsed(w) == Pack(size, free, false)
      && (forall s: int {:trigger WithSize(w, s)} :: WithSize(w, s) == Pack(s, free, prevFree))
  {
    PackRead(size, free, prevFree);
  }

  /** Writing a size over an arbitrary word keeps whatever flag bits were there. */
  lemma {:induction false} PackGarbage(w: int, s: int)
    ensures WithSize(w, s) == Pack(s, FreeBit(w), PrevFreeBit(w))
  {
    assert w == 4 * (w / 4) + w % 4;
    LowBits(w / 4, w % 4);
  }

  // ----- the physical chain -----

  /** The blocks by header address: `size` of each, which are marked free, and which
      have the previous-free bit set. */
  datatype Blocks = Blocks(size: map<int, int>, free: set<int>, prevFree: set<int>)

  function Next(size: map<int, int>, b: int): (r: int)
    requires b in size
  {
    b + 8 + size[b]
  }

  /** The blocks tile the pool from `first` to the sentinel `last`. */
  ghost predicate Tiles(size: map<int, int>, first: int, last: int)
  {
    && 0 < first < last <= first + 8 + 0xFFFF_FFF8
    && first in size && last in size && size[last] == 0
    && (forall b :: b in size ==> first <= b <= last)
    && (forall b :: b in size && b != last ==> 24 <= size[b])
    && (forall b, c {:trigger b in size, c in size} :: b in size && c in size && b < c ==> b + 8 + size[b] <= c)
    && (forall b {:trigger Next(size, b)} :: b in size && b != last ==> Next(size, b) in size)
  }

  predicate AlignedBlock(size: map<int, int>, b: int)
    requires b in size
  {
    b % 8 == 0 && size[b] % 8 == 0
  }

  ghost predicate WordAligned(size: map<int, int>)
  {
    forall b {:trigger AlignedBlock(size, b)} :: b in size ==> AlignedBlock(size, b)
  }

  const NOWHERE: int := 0

  /** The previous-free bit of every block but `stale` tells the truth about its
      neighbour. */
  ghost predicate Flags(k: Blocks, first: int, last: int, stale: int)
  {
    && k.free <= k.size.Keys && k.prevFree <= k.size.Keys
    && last !in k.free && first !in k.prevFree
    && (forall b {:trigger Next(k.size, b)} :: b in k.size && b != last && Next(k.size, b) != stale ==>
          (Next(k.size, b) in k.prevFree <==> b in k.free))
  }

  function PrevPhys(m: Mem, c: int): int { m[c] }

  function Header(k: Blocks, b: int): (w: int)
    requires b in k.size
  {
    Pack(k.size[b], b in k.free, b in k.prevFree)
  }

  /** Header words hold the blocks' sizes and flags. */
  ghost predicate Headers(m: Mem, k: Blocks)
  {
    forall b :: b in k.size ==> m[b + 8] == Header(k, b)
  }

  /** A set previous-free bit comes with a true back link. */
  ghost predicate BackLinks(m: Mem, k: Blocks, last: int, stale: int)
  {
    forall c {:trigger PrevPhys(m, c)} :: c in k.prevFree && c != stale ==>
      var p := PrevPhys(m, c);
      p in k.size && p != last && p in k.free && p + 8 + k.size[p] == c
  }

  ghost predicate Chain(m: Mem, k: Blocks, first: int, last: int, stale: int)
  {
    && Tiles(k.size, first, last) && WordAligned(k.size) && Flags(k, first, last, stale)
    && Headers(m, k) && BackLinks(m, k, last, stale)
  }

  // ----- the segregated lists -----

  /** A listed block: its links, its list and a stamp that falls along `next`. */
  datatype Node = Node(next: int, prev: int, cls: int, rank: int)

  function Class(size: int): (i: int)
    requires size >= 0
  {
    MappingInsert(size).Flat()
  }

  const LISTS: int := 800

  ghost predicate Lists(node: map<int, Node>, tab: seq<int>, nil: int)
  {
    && |tab| == LISTS
    && nil !in node
    && (forall b :: b in node ==> 0 <= node[b].cls < LISTS)
    && (forall b {:trigger node[b].next} :: b in node && node[b].next != nil ==>
          var n := node[b].next;
          n in node && node[n].prev == b && node[n].cls == node[b].cls && node[n].rank < node[b].rank)
    && (forall b {:trigger node[b].prev} :: b in node && node[b].prev != nil ==>
          var p := node[b].prev;
          p in node && node[p].next == b && node[p].cls == node[b].cls)
    && (forall b {:trigger node[b].prev} :: b in node && node[b].prev == nil ==> tab[node[b].cls] == b)
    && (forall i {:trigger tab[i]} :: 0 <= i < LISTS && tab[i] != nil ==>
          tab[i] in node && node[tab[i]].prev == nil && node[tab[i]].cls == i)
  }

  /** Listed blocks are free and filed by size. */
  ghost predicate Filed(k: Blocks, node: map<int, Node>)
  {
    && (forall b :: b in node ==> b in k.free && b in k.size && k.size[b] >= 0)
    && (forall b {:trigger Class(k.size[b])} :: b in node ==> node[b].cls == Class(k.size[b]))
  }

  const TABLE_OFFSET: int := 136
  const POOL_OFFSET: int := 6536

  /** Address of `blocks[fl][sl]`, by the flat index of the list. */
  function Slot(base: int, i: int): int { base + 136 + 8 * i }

  /** Link words and list heads are in memory. */
  ghost predicate NodeLinks(m: Mem, node: map<int, Node>)
  {
    forall b :: b in node ==> m[b + 16] == node[b].next && m[b + 24] == node[b].prev
  }

  ghost predicate HeadLinks(m: Mem, tab: seq<int>, base: int)
  {
    |tab| == LISTS && forall i {:trigger Slot(base, i)} {:trigger tab[i]} :: 0 <= i < LISTS ==>
      m[Slot(base, i)] == tab[i]
  }

  ghost predicate Links(m: Mem, node: map<int, Node>, tab: seq<int>, base: int)
  {
    NodeLinks(m, node) && HeadLinks(m, tab, base)
  }
}
