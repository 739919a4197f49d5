/** The TLSF heap operations. */
module Tlsf {
  import opened Shifts
  import opened Bits
  import opened TlsfMap
  import opened TlsfState
  import opened TlsfPhys
  import opened TlsfLists
  import opened TlsfSound
  import opened TlsfBytes

  class Heap {
    const base: int
    const last: int
    var mem: Mem
    var fl: nat
    var sl: seq<nat>
    ghost var k: Blocks
    ghost var node: map<int, Node>
    ghost var tab: seq<int>

    ghost predicate Core()
      reads this
    {
      Sound(mem, fl, sl, k, node, tab, base, last, NOWHERE)
    }

    /** `tlsf_create_with_pool` on a region of memory with arbitrary contents. */
    constructor (m: Mem, start: int, bytes: nat)
      requires 0 < start && start % 8 == 0 && bytes < SIZE_MODULUS
      requires BLOCK_SIZE_MIN <= PoolBytes(bytes) < BLOCK_SIZE_MAX
      ensures Valid() && base == start && last == start + 6536 + PoolBytes(bytes) && last + 8 <= start + bytes - 8
      ensures Outside(m, mem, base, last)
      ensures k.free == {base + 6528} && k.size.Keys == {base + 6528, last} && k.size[base + 6528] == PoolBytes(bytes)
    {
      base, last := start, start + 6536 + PoolBytes(bytes);
      mem := m;
      fl, sl := 0, [];
      k, node, tab := Blocks(map[], {}, {}), map[], [];
      new;
      hide Sound, Outside, EmptyHeads, Settled, PoolBytes;
      PoolBytesSpec(bytes);
      ControlConstruct();
      ControlOutside(m, mem, base, last);
      ghost var m1 := mem;
      AddPool(PoolBytes(bytes));
      OutsideTrans(m, m1, mem, base, last);
    }

    /** `control_construct`: empty lists, empty bitmaps. */
    method ControlConstruct()
      modifies this`mem, this`fl, this`sl
      ensures fl == 0 && |sl| == FL_INDEX_COUNT && forall f :: 0 <= f < FL_INDEX_COUNT ==> sl[f] == 0
      ensures EmptyHeads(mem, base)
      ensures forall a {:trigger mem[a]} :: a < base || base + 6528 < a ==> mem[a] == old(mem)[a]
    {
      mem := mem[base + 16 := base];
      mem := mem[base + 24 := base];
      fl := 0;
      sl := [];
      for i := 0 to FL_INDEX_COUNT
        invariant fl == 0 && |sl| == i && forall f :: 0 <= f < i ==> sl[f] == 0
        invariant forall q {:trigger Slot(base, q)} :: 0 <= q < 32 * i ==> mem[Slot(base, q)] == base
        invariant forall a {:trigger mem[a]} :: a < base || base + 6528 < a ==> mem[a] == old(mem)[a]
      {
        sl := sl + [0];
        for j := 0 to SL_INDEX_COUNT
          modifies this`mem
          invariant forall q {:trigger Slot(base, q)} :: 0 <= q < 32 * i + j ==> mem[Slot(base, q)] == base
          invariant forall a {:trigger mem[a]} :: a < base || base + 6528 < a ==> mem[a] == old(mem)[a]
        {
          mem := mem[Slot(base, 32 * i + j) := base];
        }
      }
    }

    /** `tlsf_add_pool`: one free block and the sentinel. */
    method AddPool(poolBytes: nat)
      requires base > 0 && base % 8 == 0 && BLOCK_SIZE_MIN <= poolBytes < BLOCK_SIZE_MAX && poolBytes % 8 == 0
      requires last == base + 6536 + poolBytes
      requires fl == 0 && |sl| == FL_INDEX_COUNT && forall f :: 0 <= f < FL_INDEX_COUNT ==> sl[f] == 0
      requires EmptyHeads(mem, base)
      modifies this
      ensures Valid() && Outside(old(mem), mem, base, last)
      ensures k.free == {base + 6528} && k.size.Keys == {base + 6528, last} && k.size[base + 6528] == poolBytes
    {
      hide Sound, Settled, InsertM, InsertN, MappingInsert, Outside, SetBit, SetSize, SetFree, SetUsed, SetPrevFree,
        SetPrevUsed, Class, PoolBlocks, EmptyHeads;
      var b := base + 6528;
      ghost var m0 := mem;
      mem := SetSize(mem, b, poolBytes);
      mem := SetFree(mem, b);
      mem := SetPrevUsed(mem, b);
      ghost var m1 := mem;
      ClassIndex(poolBytes);
      var i := MappingInsert(poolBytes);
      InsertFreeBlock(b, i);
      ghost var m2 := mem;
      var next := b + 8 + poolBytes;
      mem := mem[next := b];
      mem := SetSize(mem, next, 0);
      mem := SetUsed(mem, next);
      mem := SetPrevFree(mem, next);
      FreshPool(m0, m1, m2, mem, fl, sl, base, last, poolBytes, i);
      PoolBlocksShape(base, last, poolBytes);
      k := PoolBlocks(base, last, poolBytes);
      tab := EmptyTable(base)[i.Flat() := b];
      node := InsertN(map[], EmptyTable(base), base, b, i.Flat());
    }

    /** `insert_free_block` */
    method InsertFreeBlock(b: int, i: Index)
      requires i.fl < |sl|
      modifies this`mem, this`fl, this`sl
      ensures mem == InsertM(old(mem), base, b, i.Flat())
      ensures fl == SetBit(old(fl), i.fl) && sl == old(sl)[i.fl := SetBit(old(sl)[i.fl], i.sl)]
    {
      var slot := Slot(base, i.Flat());
      var current := mem[slot];
      mem := mem[b + 16 := current];
      mem := mem[b + 24 := base];
      mem := mem[current + 24 := b];
      mem := mem[slot := b];
      fl := SetBit(fl, i.fl);
      sl := sl[i.fl := SetBit(sl[i.fl], i.sl)];
    }

    /** `remove_free_block` */
    method RemoveFreeBlock(b: int, i: Index)
      requires i.fl < |sl|
      modifies this`mem, this`fl, this`sl
      ensures mem == RemoveM(old(mem), base, b, i.Flat())
      ensures var e := RemoveEmpties(old(mem), base, b, i.Flat());
        fl == RemoveFl(old(fl), old(sl), i, e) && sl == RemoveSl(old(sl), i, e)
    {
      var slot := Slot(base, i.Flat());
      var prev := mem[b + 24];
      var next := mem[b + 16];
      mem := mem[next + 24 := prev];
      mem := mem[prev + 16 := next];
      if mem[slot] == b {
        mem := mem[slot := next];
        if next == base {
          sl := sl[i.fl := ClearBit(sl[i.fl], i.sl)];
          if sl[i.fl] == 0 {
            fl := ClearBit(fl, i.fl);
          }
        }
      }
    }

    /** `block_insert` */
    method BlockInsert(b: int)
      requires Core() && b in k.free && b in k.size && b !in node
      modifies this
      ensures Core() && k == old(k) && node.Keys == old(node.Keys) + {b}
      ensures Kept(old(mem), old(k), mem, k, NOWHERE) && Outside(old(mem), mem, base, last)
    {
      hide Sound, MappingInsert, InsertM, InsertN, Class, Kept, Outside;
      Reading(mem, fl, sl, k, node, tab, base, last, NOWHERE, b);
      var i := MappingInsert(SizeOf(mem[b + 8]));
      ReadingFree(mem, fl, sl, k, node, tab, base, last, b, i);
      ghost var m0, fl0, sl0, node0, tab0 := mem, fl, sl, node, tab;
      BlockInsertSound(m0, fl0, sl0, k, node0, tab0, base, last, b, i, i.Flat());
      InsertFreeBlock(b, i);
      node, tab := InsertN(node0, tab0, base, b, i.Flat()), tab0[i.Flat() := b];
    }

    /** `block_remove` */
    method BlockRemove(b: int)
      requires Core() && b in node && b in k.size
      modifies this
      ensures Core() && k == old(k) && node.Keys == old(node.Keys) - {b}
      ensures Kept(old(mem), old(k), mem, k, NOWHERE) && Outside(old(mem), mem, base, last)
    {
      hide Sound, MappingInsert, Class, Kept, Outside;
      Reading(mem, fl, sl, k, node, tab, base, last, NOWHERE, b);
      var i := MappingInsert(SizeOf(mem[b + 8]));
      ReadingFree(mem, fl, sl, k, node, tab, base, last, b, i);
      RemoveListed(b, i);
    }

    /** `remove_free_block` on a listed block, with the list it is on. */
    method RemoveListed(b: int, i: Index)
      requires Core() && b in node && i.fl < FL_INDEX_COUNT == |sl| && i.sl < SL_INDEX_COUNT && node[b].cls == i.Flat()
      modifies this
      ensures Core() && k == old(k) && node.Keys == old(node.Keys) - {b}
      ensures Kept(old(mem), old(k), mem, k, NOWHERE) && Outside(old(mem), mem, base, last)
    {
      hide Sound, RemoveM, RemoveN, RemoveT, RemoveEmpties, RemoveFl, RemoveSl, Kept, Outside;
      ghost var m0, fl0, sl0, node0, tab0 := mem, fl, sl, node, tab;
      BlockRemoveSound(m0, fl0, sl0, k, node0, tab0, base, last, b, i);
      RemoveFreeBlock(b, i);
      node, tab := RemoveN(node0, base, b), RemoveT(node0, tab0, b);
    }

    /** `search_suitable_block`: the first non-empty list from `i` on. */
    method SearchSuitableBlock(i: Index) returns (b: int, j: Index)
      requires base > 0 && |tab| == LISTS && Maps(fl, sl, tab, base) && HeadLinks(mem, tab, base)
      requires i.fl < FL_INDEX_COUNT && i.sl < SL_INDEX_COUNT
      requires forall q {:trigger tab[q]} :: 0 <= q < LISTS ==> tab[q] > 0
      ensures b == 0 <==> forall q :: i.Flat() <= q < LISTS ==> tab[q] == base
      ensures b != 0 ==>
        j.fl < FL_INDEX_COUNT && j.sl < SL_INDEX_COUNT && i.Flat() <= j.Flat()
        && b == tab[j.Flat()] != base
      ensures b != 0 ==> forall q :: i.Flat() <= q < j.Flat() ==> tab[q] == base
    {
      var f := i.fl;
      var slMap := MaskFrom(sl[f], i.sl);
      RowEmptyFrom(fl, sl, tab, base, f, i.sl);
      if slMap == 0 {
        var flMap := MaskFrom(fl, f + 1);
        RowsEmptyFrom(fl, sl, tab, base, f + 1);
        if flMap == 0 {
          return 0, i;
        }
        f := Ffs(flMap);
        slMap := sl[f];
        RowEmptyFrom(fl, sl, tab, base, f, 0);
      }
      var s := Ffs(slMap);
      j := Index(f, s);
      b := mem[Slot(base, j.Flat())];
    }

    /** `block_locate_free`: take a block that fits off its list. It fails only when every
        list from the searched one on is empty. */
    method BlockLocateFree(size: nat) returns (b: int)
      requires Core() && node.Keys == k.free
      requires size == 0 || (24 <= size && size % 8 == 0)
      modifies this
      ensures b == 0 ==>
        mem == old(mem) && fl == old(fl) && sl == old(sl) && k == old(k) && node == old(node)
        && tab == old(tab)
      ensures b == 0 <==> NoFit(old(node), size)
      ensures b != 0 ==> Core() && k == old(k) && Holding(k, node, b) && 0 < size <= k.size[b]
      ensures b != 0 ==> FirstFit(old(node), b, MappingSearch(size).Flat())
      ensures b != 0 ==> Kept(old(mem), old(k), mem, k, NOWHERE) && Outside(old(mem), mem, base, last)
    {
      b := 0;
      if size > 0 {
        var i := MappingSearch(size);
        SearchClassLow(size);
        if i.fl < FL_INDEX_COUNT {
          var j;
          HeadsPositive(mem, fl, sl, k, node, tab, base, last);
          b, j := SearchSuitableBlock(i);
          if b != 0 {
            ServedBy(k, node, b, size);
            FirstFits(node, tab, base, b, i.Flat(), j.Flat());
            RemoveListed(b, j);
          } else {
            forall c | c in node ensures node[c].cls < i.Flat() {
              NoneFrom(node, tab, base, i.Flat(), c);
            }
          }
        }
      }
    }

    /** `block_merge_prev`: absorb a held block into the free block before it. */
    method BlockMergePrev(b: int) returns (r: int)
      requires Core() && Holding(k, node, b) && b in k.size && Pairs(k, b, Next(k.size, b))
      modifies this
      ensures Core() && Holding(k, node, r) && r in k.size && r !in k.prevFree
        && Pairs(k, Next(k.size, r), Next(k.size, r))
      ensures Kept(old(mem), old(k), mem, k, NOWHERE) && Outside(old(mem), mem, base, last)
    {
      hide Sound, Kept, Outside, Absorb, AbsorbB, MarkFree;
      r := b;
      Reading(mem, fl, sl, k, node, tab, base, last, NOWHERE, b);
      if PrevFreeBit(mem[b + 8]) {
        var prev := mem[b];
        ghost var m0 := mem;
        BlockRemove(prev);
        MergePrevSound(m0, mem, fl, sl, k, node, tab, base, last, prev, b);
        mem := Absorb(mem, prev, b);
        k := AbsorbB(k, prev, b);
        r := prev;
      } else {
        KeptSame(mem, k, NOWHERE);
        OutsideSame(mem, base, last);
      }
    }

    /** `block_merge_next`: absorb the free block after b, if there is one. */
    method BlockMergeNext(b: int)
      requires Core() && b in k.size && b != last && b !in node
      requires forall c :: c in k.free && c != b ==> c in node
      modifies this
      ensures var n := b + 8 + old(k).size[b];
        if n in old(k).free then
          && n in old(k).size && k == AbsorbB(old(k), b, n) && node.Keys == old(node.Keys) - {n}
          && Sound(mem, fl, sl, k, node, tab, base, last, if b in k.free then NOWHERE else Next(k.size, b))
        else Core() && k == old(k) && node == old(node)
      ensures Kept(old(mem), old(k), mem, k, b) && Outside(old(mem), mem, base, last)
      ensures Used(old(k), b) ==> SamePayload(old(mem), mem, b, old(k).size[b])
    {
      hide Sound, Kept, Outside, Absorb, AbsorbB, SamePayload, SizeOf, FreeBit, PrevFreeBit;
      Reading(mem, fl, sl, k, node, tab, base, last, NOWHERE, b);
      var next := b + 8 + SizeOf(mem[b + 8]);
      Reading(mem, fl, sl, k, node, tab, base, last, NOWHERE, next);
      if FreeBit(mem[next + 8]) {
        ghost var m0 := mem;
        BlockRemove(next);
        MergeNextSound(m0, mem, fl, sl, k, node, tab, base, last, b, next);
        mem := Absorb(mem, b, next);
        k := AbsorbB(k, b, next);
      } else {
        KeptSame(mem, k, b);
        OutsideSame(mem, base, last);
        PayloadSame(mem, b, k.size[b]);
      }
    }

    /** `block_trim_free`: give the tail of a held block back to the lists. */
    method BlockTrimFree(b: int, size: int)
      requires Core() && Holding(k, node, b) && b in k.size && Pairs(k, b, b)
      requires 24 <= size <= k.size[b] && size % 8 == 0
      modifies this
      ensures Core() && Holding(k, node, b) && b in k.size && Pairs(k, b, Next(k.size, b))
      ensures k == CutFree(old(k), b, size)
      ensures size <= k.size[b] <= old(k).size[b] && k.size[b] < size + 32
      ensures Kept(old(mem), old(k), mem, k, NOWHERE) && Outside(old(mem), mem, base, last)
    {
      hide Sound, Kept, Outside, Split, SplitFree, LinkNext, SetPrevFree, SizeOf, FreeBit, PrevFreeBit;
      Reading(mem, fl, sl, k, node, tab, base, last, NOWHERE, b);
      if SizeOf(mem[b + 8]) >= 32 + size {
        ghost var m0, k0 := mem, k;
        TrimFreeSound(mem, fl, sl, k, node, tab, base, last, b, size);
        mem := Split(mem, b, size);
        var rest := b + 8 + size;
        mem := LinkNext(mem, b);
        mem := SetPrevFree(mem, rest);
        k := SplitFree(k, b, size);
        ghost var m1 := mem;
        BlockInsert(rest);
        KeptSeq(m0, k0, m1, k, mem, k, NOWHERE, NOWHERE, NOWHERE);
        OutsideTrans(m0, m1, mem, base, last);
      } else {
        KeptSame(mem, k, NOWHERE);
        OutsideSame(mem, base, last);
      }
    }

    /** `block_prepare_used`: hand out a held block, trimmed to the request. */
    method BlockPrepareUsed(b: int, size: int) returns (p: int)
      requires b == 0 ==> Valid()
      requires b != 0 ==> Core() && Holding(k, node, b) && b in k.size && Pairs(k, b, b)
      requires b != 0 ==> 24 <= size <= k.size[b] && size % 8 == 0
      modifies this
      ensures Valid() && p == if b == 0 then 0 else b + 16
      ensures b == 0 ==> Same(old(mem), mem, old(k), k, old(node), node)
      ensures b != 0 ==> Used(k, b) && size <= k.size[b] && Kept(old(mem), old(k), mem, k, b)
      ensures b != 0 ==> Carved(old(k), k, b, size)
      ensures Outside(old(mem), mem, base, last)
    {
      hide Sound, Kept, Outside, MarkUsed;
      if b == 0 {
        OutsideSame(mem, base, last);
        return 0;
      }
      ghost var m0, k0 := mem, k;
      HeldBlock(mem, fl, sl, k, node, tab, base, last, b);
      BlockTrimFree(b, size);
      ghost var m1, k1 := mem, k;
      Reading(mem, fl, sl, k, node, tab, base, last, NOWHERE, b);
      MarkUsedSound(mem, fl, sl, k, node, tab, base, last, b, NOWHERE);
      mem := MarkUsed(mem, b);
      k := MarkUsedB(k, b);
      NowhereOutside(m0, k0, m1, k1, mem, k, base, last, b);
      CutCarved(k0, b, size);
      p := b + 16;
    }

    ghost predicate Valid()
      reads this
    {
      Core() && Settled(k, node)
    }

    /** `tlsf_malloc` */
    method Malloc(size: nat) returns (p: int)
      requires Valid() && size < SIZE_MODULUS
      modifies this
      ensures Valid() && Outside(old(mem), mem, base, last)
      ensures p == 0 ==> Same(old(mem), mem, old(k), k, old(node), node)
      ensures p == 0 <==> NoFit(old(node), AdjustRequestSize(size, 3))
      ensures p != 0 ==> Served(old(mem), mem, old(k), k, p - 16, AdjustRequestSize(size, 3))
      ensures p != 0 ==> var adjust := AdjustRequestSize(size, 3);
        FirstFit(old(node), p - 16, MappingSearch(adjust).Flat()) && Carved(old(k), k, p - 16, adjust)
      ensures p != 0 ==> (size <= k.size[p - 16] <==> size <= SIZE_MODULUS - 8)
    {
      hide Sound, Kept, Outside, AdjustRequestSize, MappingSearch;
      var adjust := AdjustRequestSize(size, 3);
      AdjustAny(size);
      ghost var m0, k0 := mem, k;
      var b := BlockLocateFree(adjust);
      ghost var m1, k1 := mem, k;
      if b != 0 {
        HeldBlock(mem, fl, sl, k, node, tab, base, last, b);
      }
      p := BlockPrepareUsed(b, adjust);
      if b != 0 {
        Reading(mem, fl, sl, k, node, tab, base, last, NOWHERE, b);
        KeptSeq(m0, k0, m1, k1, mem, k, NOWHERE, b, b);
        OutsideTrans(m0, m1, mem, base, last);
      }
    }

    /** `tlsf_free` */
    method Free(ptr: int)
      requires Valid() && (ptr != 0 ==> Used(k, ptr - 16))
      modifies this
      ensures Valid() && Outside(old(mem), mem, base, last)
      ensures ptr == 0 ==> Same(old(mem), mem, old(k), k, old(node), node)
      ensures ptr != 0 ==> !Used(k, ptr - 16) && Kept(old(mem), old(k), mem, k, ptr - 16)
    {
      hide Sound, Kept, Outside, MarkFree;
      if ptr == 0 {
        OutsideSame(mem, base, last);
        return;
      }
      var b := ptr - 16;
      ghost var m0, k0 := mem, k;
      Reading(mem, fl, sl, k, node, tab, base, last, NOWHERE, b);
      UsedNotLast(mem, fl, sl, k, node, tab, base, last, b);
      MarkFreeSound(mem, fl, sl, k, node, tab, base, last, b);
      mem := MarkFree(mem, b);
      k := MarkFreeB(k, b);
      ghost var m1, k1 := mem, k;
      b := BlockMergePrev(b);
      ghost var m2, k2 := mem, k;
      HeldBlock(mem, fl, sl, k, node, tab, base, last, b);
      BlockMergeNext(b);
      MergedHolding(k2, k, node, b);
      ghost var m3, k3 := mem, k;
      KeptAll(m2, k2, m3, k3, b);
      HeldBlock(mem, fl, sl, k, node, tab, base, last, b);
      BlockInsert(b);
      KeptSeq(m2, k2, m3, k3, mem, k, NOWHERE, NOWHERE, NOWHERE);
      KeptSeq(m1, k1, m2, k2, mem, k, NOWHERE, NOWHERE, NOWHERE);
      KeptSeq(m0, k0, m1, k1, mem, k, ptr - 16, NOWHERE, ptr - 16);
      StillFree(m1, k1, mem, k, ptr - 16);
      OutsideTrans(m2, m3, mem, base, last);
      OutsideTrans(m1, m2, mem, base, last);
      OutsideTrans(m0, m1, mem, base, last);
    }

    /** `block_trim_used`: give the tail of a used block back to the lists. */
    method BlockTrimUsed(b: int, size: int)
      requires Valid() && Used(k, b) && 24 <= size <= k.size[b] && size % 8 == 0
      modifies this
      ensures Valid() && Used(k, b) && size <= k.size[b] <= old(k).size[b] && k.size[b] < size + 32
      ensures k == CutUsed(old(k), b, size)
      ensures Kept(old(mem), old(k), mem, k, b) && SamePayload(old(mem), mem, b, size)
      ensures Outside(old(mem), mem, base, last)
    {
      hide Sound, Kept, Outside, Split, SplitUsed, SetPrevUsed, SizeOf, FreeBit, PrevFreeBit, SamePayload, AbsorbB;
      Reading(mem, fl, sl, k, node, tab, base, last, NOWHERE, b);
      if SizeOf(mem[b + 8]) >= 32 + size {
        ghost var m0, k0 := mem, k;
        TrimUsedSound(mem, fl, sl, k, node, tab, base, last, b, size);
        mem := Split(mem, b, size);
        var rest := b + 8 + size;
        mem := SetPrevUsed(mem, rest);
        k := SplitUsed(k, b, size);
        ghost var m1, k1 := mem, k;
        HeldBlock(mem, fl, sl, k, node, tab, base, last, rest);
        BlockMergeNext(rest);
        MergedHolding(k1, k, node, rest);
        CutUsedIs(k0, k1, k, b, size);
        ghost var m2, k2 := mem, k;
        KeptAll(m1, k1, m2, k2, rest);
        HeldBlock(mem, fl, sl, k, node, tab, base, last, rest);
        BlockInsert(rest);
        KeptSeq(m1, k1, m2, k2, mem, k, NOWHERE, NOWHERE, NOWHERE);
        KeptSeq(m0, k0, m1, k1, mem, k, b, NOWHERE, b);
        PayloadKept(m1, k1, mem, k, b);
        PayloadTrans(m0, m1, mem, b, size, size);
        OutsideTrans(m1, m2, mem, base, last);
        OutsideTrans(m0, m1, mem, base, last);
      } else {
        KeptSame(mem, k, b);
        PayloadSame(mem, b, size);
        OutsideSame(mem, base, last);
      }
    }

    /** A caller's own write into a block it holds. */
    method Store(b: int, a: int, v: int)
      requires Valid() && Used(k, b) && b + 16 <= a <= Next(k.size, b)
      modifies this`mem
      ensures Valid() && mem == old(mem)[a := v]
      ensures Kept(old(mem), k, mem, k, b) && Outside(old(mem), mem, base, last)
    {
      hide Sound, Kept, Outside;
      PayloadWriteSound(mem, mem[a := v], fl, sl, k, node, tab, base, last, b);
      mem := mem[a := v];
    }

    /** `tlsf_realloc` for a live block and a size the heap accepts. It fails exactly if the
        block must move and no list has a block for it. */
    method Resize(ptr: int, size: nat) returns (p: int)
      requires Valid() && 0 < size <= BLOCK_SIZE_MAX - 8 && Used(k, ptr - 16)
      modifies this
      ensures Valid() && Outside(old(mem), mem, base, last)
      ensures p == 0 ==> Same(old(mem), mem, old(k), k, old(node), node)
      ensures var adjust := AdjustRequestSize(size, 3);
        && (p == 0 <==> MustMove(old(k), ptr - 16, adjust) && NoFit(old(node), adjust))
        && (p == ptr <==> !MustMove(old(k), ptr - 16, adjust))
        && (p == ptr ==> k == Fitted(old(k), ptr - 16, adjust) && p - 16 in k.size && k.size[p - 16] < adjust + 32)
      ensures p != 0 ==> Used(k, p - 16) && size <= k.size[p - 16]
      ensures p != 0 ==> BytesMoved(old(mem), mem, ptr, p, Min(old(k).size[ptr - 16], size))
      ensures p == ptr ==> Kept(old(mem), old(k), mem, k, p - 16)
      ensures p != 0 && p != ptr ==>
        !Used(old(k), p - 16) && !Used(k, ptr - 16) && KeptBut(old(mem), old(k), mem, k, ptr - 16, p - 16)
    {
      hide Sound, Kept, KeptBut, Outside, AdjustRequestSize, MappingSearch, SizeOf, FreeBit, PrevFreeBit,
        BytesMoved, Fitted, NoFit;
      var b := ptr - 16;
      Reading(mem, fl, sl, k, node, tab, base, last, NOWHERE, b);
      UsedNotLast(mem, fl, sl, k, node, tab, base, last, b);
      var next := b + 8 + SizeOf(mem[b + 8]);
      Reading(mem, fl, sl, k, node, tab, base, last, NOWHERE, next);
      var cursize := SizeOf(mem[b + 8]);
      var combined := cursize + SizeOf(mem[next + 8]) + 8;
      var adjust := AdjustRequestSize(size, 3);
      AdjustWord(size);
      if adjust > cursize && (!FreeBit(mem[next + 8]) || adjust > combined) {
        p := MoveBlock(ptr, size, cursize);
      } else {
        FitInPlace(b, adjust, size);
        p := ptr;
      }
    }

    /** The branch of `tlsf_realloc` that allocates, copies and frees. */
    method MoveBlock(ptr: int, size: nat, cursize: nat) returns (p: int)
      requires Valid() && 0 < size <= BLOCK_SIZE_MAX - 8 && Used(k, ptr - 16) && cursize == k.size[ptr - 16]
      modifies this
      ensures Valid() && Outside(old(mem), mem, base, last)
      ensures p == 0 <==> NoFit(old(node), AdjustRequestSize(size, 3))
      ensures p == 0 ==> Same(old(mem), mem, old(k), k, old(node), node)
      ensures p != ptr
      ensures p != 0 ==> Used(k, p - 16) && size <= k.size[p - 16]
      ensures p != 0 ==> BytesMoved(old(mem), mem, ptr, p, Min(cursize, size))
      ensures p != 0 ==>
        !Used(old(k), p - 16) && !Used(k, ptr - 16) && KeptBut(old(mem), old(k), mem, k, ptr - 16, p - 16)
    {
      hide Sound, Kept, KeptBut, Outside, AdjustRequestSize, MappingSearch, BytesMoved, Memcpy, NoFit, Carved, FirstFit;
      var b := ptr - 16;
      ghost var m0, k0 := mem, k;
      Reading(mem, fl, sl, k, node, tab, base, last, NOWHERE, b);
      AdjustWord(size);
      p := Malloc(size);
      if p != 0 {
        ghost var m1, k1 := mem, k;
        MoveTo(m0, k0, m1, k1, b, p - 16);
        Reading(mem, fl, sl, k, node, tab, base, last, NOWHERE, p - 16);
        var minsize := Min(cursize, size);
        MemcpyKept(mem, fl, sl, k, node, tab, base, last, p - 16, ptr, minsize);
        mem := Memcpy(mem, p, ptr, minsize);
        ghost var m2 := mem;
        Free(ptr);
        MovedAway(m0, k0, m1, k1, m2, mem, k, b, p - 16, minsize);
        OutsideTrans(m0, m1, m2, base, last);
        OutsideTrans(m0, m2, mem, base, last);
      }
    }

    /** The branch of `tlsf_realloc` that joins the block with the next one if it is too
        small, and gives back what is over. */
    method FitInPlace(b: int, adjust: int, size: nat)
      requires Valid() && Used(k, b) && 24 <= adjust && adjust % 8 == 0 && 0 < size <= adjust && !MustMove(k, b, adjust)
      modifies this
      ensures Valid() && Outside(old(mem), mem, base, last) && k == Fitted(old(k), b, adjust)
      ensures Used(k, b) && adjust <= k.size[b] < adjust + 32
      ensures BytesMoved(old(mem), mem, b + 16, b + 16, Min(old(k).size[b], size))
      ensures Kept(old(mem), old(k), mem, k, b)
    {
      hide Sound, Kept, Outside, SizeOf, MarkUsed, AbsorbB, SamePayload, BytesMoved, CutUsed;
      ghost var m0, k0 := mem, k;
      Reading(mem, fl, sl, k, node, tab, base, last, NOWHERE, b);
      UsedNotLast(mem, fl, sl, k, node, tab, base, last, b);
      var cursize := SizeOf(mem[b + 8]);
      ghost var next := Next(k.size, b);
      if adjust > cursize {
        BlockMergeNext(b);
        ghost var m1, k1 := mem, k;
        GrownShape(k0, k1, node, b, next, base, last);
        MarkUsedSound(mem, fl, sl, k, node, tab, base, last, b, Next(k.size, b));
        mem := MarkUsed(mem, b);
        k := MarkUsedB(k, b);
        GrownSettled(k0, k1, k, node, b, next);
        ghost var m2, k2 := mem, k;
        MarkUsedPayload(m1, m2, b, k1.size[b]);
        PayloadTrans(m0, m1, m2, b, cursize, k1.size[b]);
        KeptTrans(m0, k0, m1, k1, m2, k2, b);
        OutsideTrans(m0, m1, m2, base, last);
        BlockTrimUsed(b, adjust);
        PayloadTrans(m0, m2, mem, b, cursize, adjust);
        KeptTrans(m0, k0, m2, k2, mem, k, b);
        OutsideTrans(m0, m2, mem, base, last);
      } else {
        BlockTrimUsed(b, adjust);
      }
      PayloadBytes(m0, mem, b, Min(cursize, adjust), Min(cursize, size));
    }

    /** `tlsf_realloc`. For a live block the size must be one the heap can serve. */
    method Realloc(ptr: int, size: nat) returns (p: int)
      requires Valid() && size < SIZE_MODULUS
      requires ptr != 0 ==> Used(k, ptr - 16) && size <= BLOCK_SIZE_MAX - 8
      modifies this
      ensures Valid() && Outside(old(mem), mem, base, last)
      ensures ptr != 0 && size == 0 ==> p == 0 && !Used(k, ptr - 16) && Kept(old(mem), old(k), mem, k, ptr - 16)
      ensures p == 0 && (ptr == 0 || size != 0) ==> Same(old(mem), mem, old(k), k, old(node), node)
      ensures var adjust := AdjustRequestSize(size, 3);
        p == 0 <==> if ptr == 0 then NoFit(old(node), adjust)
                    else size == 0 || (MustMove(old(k), ptr - 16, adjust) && NoFit(old(node), adjust))
      ensures p != 0 ==> Used(k, p - 16) && (size <= SIZE_MODULUS - 8 ==> size <= k.size[p - 16])
      ensures p != 0 && (ptr == 0 || p == ptr) ==> Kept(old(mem), old(k), mem, k, p - 16)
      ensures p != 0 && p != ptr ==> !Used(old(k), p - 16)
      ensures p != 0 && ptr != 0 ==> BytesMoved(old(mem), mem, ptr, p, Min(old(k).size[ptr - 16], size))
      ensures p != 0 && ptr != 0 && p != ptr ==>
        !Used(k, ptr - 16) && KeptBut(old(mem), old(k), mem, k, ptr - 16, p - 16)
    {
      hide Sound, Kept, KeptBut, Outside, AdjustRequestSize, MappingSearch, BytesMoved, NoFit, MustMove, Fitted;
      if ptr != 0 && size == 0 {
        Free(ptr);
        p := 0;
      } else if ptr == 0 {
        p := Malloc(size);
      } else {
        p := Resize(ptr, size);
      }
    }

    /** `block_trim_free_leading`: file the front of a held block and keep the rest. */
    method BlockTrimFreeLeading(b: int, gap: int) returns (r: int)
      requires Core() && Holding(k, node, b) && b in k.size && forall c :: c in k.free ==> c !in k.prevFree
      requires 32 <= gap && gap % 8 == 0 && gap + 32 <= k.size[b]
      modifies this
      ensures Core() && r == b + gap && Holding(k, node, r) && r in k.size && Pairs(k, r, r)
      ensures k.size[r] == old(k).size[b] - gap && k == SplitFree(old(k), b, gap - 8)
      ensures Kept(old(mem), old(k), mem, k, NOWHERE) && Outside(old(mem), mem, base, last)
    {
      hide Sound, Kept, Outside, Split, SplitFree, LinkNext, SetPrevFree, SizeOf, FreeBit, PrevFreeBit;
      Reading(mem, fl, sl, k, node, tab, base, last, NOWHERE, b);
      r := b;
      if SizeOf(mem[b + 8]) >= 32 + gap {
        ghost var m0, k0 := mem, k;
        TrimFreeSound(mem, fl, sl, k, node, tab, base, last, b, gap - 8);
        LeadingShape(k, b, gap - 8);
        mem := Split(mem, b, gap - 8);
        r := b + 8 + (gap - 8);
        mem := SetPrevFree(mem, r);
        mem := LinkNext(mem, b);
        k := SplitFree(k, b, gap - 8);
        ghost var m1 := mem;
        BlockInsert(b);
        KeptSeq(m0, k0, m1, k, mem, k, NOWHERE, NOWHERE, NOWHERE);
        OutsideTrans(m0, m1, mem, base, last);
      }
    }

    /** `tlsf_memalign` for the alignment 1 << j. It fails exactly if no list has a block for
        the payload and the widest gap. */
    method Memalign(j: nat, size: nat) returns (p: int)
      requires Valid() && size <= SIZE_MODULUS - 8 && j <= 62 && last + 16 + BLOCK_SIZE_MAX <= SIZE_MODULUS
      modifies this
      ensures Valid() && Outside(old(mem), mem, base, last)
      ensures p == 0 ==> Same(old(mem), mem, old(k), k, old(node), node)
      ensures p == 0 <==> NoFit(old(node), SearchSize(size, j))
      ensures p > 0 ==> Aligned(p, j) && Served(old(mem), mem, old(k), k, p - 16, size)
      ensures p > 0 ==> CarvedInside(old(k), k, old(node), p - 16, size, j)
      ensures p >= 0
    {
      hide Sound, Kept, Outside, AdjustRequestSize, MappingSearch, Aligned, Pow2, SizeWithGap, LeadingGap, NoFit,
        FirstFit, Carved, CarvedInside, SplitFree;
      var adjust := AdjustRequestSize(size, 3);
      AdjustWord(size);
      var alignedSize := adjust;
      if adjust != 0 && j > 3 {
        alignedSize := SizeWithGap(adjust, j);
        SizeWithGapEnough(adjust, j);
      }
      ghost var m0, k0, node0 := mem, k, node;
      var b := BlockLocateFree(alignedSize);
      ghost var m1, k1 := mem, k;
      if b != 0 {
        HeldBlock(mem, fl, sl, k, node, tab, base, last, b);
        p := PrepareAligned(b, adjust, j);
        KeptSeq(m0, k0, m1, k1, mem, k, NOWHERE, p - 16, p - 16);
        OutsideTrans(m0, m1, mem, base, last);
        NewlyServed(m0, k0, m1, k1, p - 16);
        CarvesInside(k0, k, node0, b, p - 16, size, j);
      } else {
        p := BlockPrepareUsed(0, adjust);
      }
    }

    /** The rest of `tlsf_memalign`, with the block found. */
    method PrepareAligned(a: int, adjust: nat, j: nat) returns (p: int)
      requires Core() && Holding(k, node, a) && a in k.size && forall c :: c in k.free ==> c !in k.prevFree
      requires 24 <= adjust && adjust % 8 == 0 && j <= 62 && last + 16 + BLOCK_SIZE_MAX <= SIZE_MODULUS
      requires if j > 3 then adjust + Pow2(j) + 32 <= k.size[a] && Pow2(j) < BLOCK_SIZE_MAX else adjust <= k.size[a]
      modifies this
      ensures Valid() && Outside(old(mem), mem, base, last)
      ensures p > 0 && Aligned(p, j) && Served(old(mem), mem, old(k), k, p - 16, adjust)
      ensures a + 16 >= 0 && p - 16 == a + LeadingGap(a + 16, j) && a in old(k).size
      ensures Carved(if p - 16 == a then old(k) else SplitFree(old(k), a, p - 16 - a - 8), k, p - 16, adjust)
      ensures p - 16 in k.size && NOWHERE !in k.size && NOWHERE !in old(k).size
    {
      hide Sound, Kept, Outside, Aligned, Pow2, LeadingGap, Carved, SplitFree;
      ghost var m0, k0 := mem, k;
      HeldBlock(mem, fl, sl, k, node, tab, base, last, a);
      Reading(mem, fl, sl, k, node, tab, base, last, NOWHERE, a);
      SmallAlignment(j);
      LeadingGapSpec(a + 16, j);
      var gap := LeadingGap(a + 16, j);
      var b := a;
      if gap != 0 {
        b := BlockTrimFreeLeading(a, gap);
        HeldBlock(mem, fl, sl, k, node, tab, base, last, b);
      } else {
        KeptSame(mem, k, NOWHERE);
        OutsideSame(mem, base, last);
      }
      ghost var m2, k2 := mem, k;
      p := BlockPrepareUsed(b, adjust);
      Reading(mem, fl, sl, k, node, tab, base, last, NOWHERE, b);
      KeptSeq(m0, k0, m2, k2, mem, k, NOWHERE, b, b);
      OutsideTrans(m0, m2, mem, base, last);
      NewlyUsed(m0, k0, m2, k2, b);
    }
  }

  /** The size that `tlsf_memalign` searches for. */
  function SearchSize(size: nat, j: nat): (r: nat)
  {
    var adjust := AdjustRequestSize(size, 3);
    if adjust != 0 && j > 3 then SizeWithGap(adjust, j) else adjust
  }

  /** Block b is handed out from inside free block a, the first that fits: the least gap that
      aligns the payload and is nothing or holds a block is one free block before it. */
  ghost predicate CarvedFrom(k: Blocks, k': Blocks, node: map<int, Node>, a: int, b: int, size: nat, j: nat)
  {
    && FirstFit(node, a, MappingSearch(SearchSize(size, j)).Flat()) && a in k.size && a + 16 >= 0
    && b == a + LeadingGap(a + 16, j)
    && Carved(if b == a then k else SplitFree(k, a, b - a - 8), k', b, AdjustRequestSize(size, 3))
  }

  ghost predicate CarvedInside(k: Blocks, k': Blocks, node: map<int, Node>, b: int, size: nat, j: nat)
  {
    exists a {:trigger CarvedFrom(k, k', node, a, b, size, j)} :: CarvedFrom(k, k', node, a, b, size, j)
  }

  lemma {:induction false} CarvesInside(k: Blocks, k': Blocks, node: map<int, Node>, a: int, b: int, size: nat, j: nat)
    requires FirstFit(node, a, MappingSearch(SearchSize(size, j)).Flat()) && a in k.size && a + 16 >= 0
    requires b == a + LeadingGap(a + 16, j)
    requires Carved(if b == a then k else SplitFree(k, a, b - a - 8), k', b, AdjustRequestSize(size, 3))
    ensures CarvedInside(k, k', node, b, size, j)
  {
    assert CarvedFrom(k, k', node, a, b, size, j);
  }

  lemma {:induction false} NewlyServed(m0: Mem, k0: Blocks, m1: Mem, k1: Blocks, b: int)
    requires Kept(m0, k0, m1, k1, NOWHERE) && !Used(k1, b) && NOWHERE !in k0.size
    ensures !Used(k0, b)
  {
  }

  lemma {:induction false} SmallAlignment(j: nat)
    ensures j <= 3 ==> Pow2(j) <= 8
  {
    if j <= 3 {
      assert Pow2(3) == 8;
      Pow2Monotone(j, 3);
    }
  }

  lemma {:induction false} LeadingShape(k: Blocks, b: int, s: int)
    requires b in k.size && b in k.free && b !in k.prevFree && s >= 24 && k.size[b] >= s + 32
    ensures b !in SplitFree(k, b, s).prevFree
  {
  }

  /** A block that is free before a step that keeps all used blocks was not in use. */
  lemma {:induction false} NewlyUsed(m0: Mem, k0: Blocks, m2: Mem, k2: Blocks, b: int)
    requires Kept(m0, k0, m2, k2, NOWHERE) && b in k2.free && b != NOWHERE
    ensures !Used(k0, b)
  {
  }

  // ----- a fresh pool -----

  /** `align_down(bytes - sizeof(control_t) - pool overhead, 8)` on 64-bit words */
  function PoolBytes(bytes: nat): (r: nat)
  {
    var p := (bytes - 6536 - 16) % 0x1_0000_0000_0000_0000;
    p - p % 8
  }

  lemma {:induction false} PoolBytesSpec(bytes: nat)
    requires bytes < SIZE_MODULUS && BLOCK_SIZE_MIN <= PoolBytes(bytes) < BLOCK_SIZE_MAX
    ensures PoolBytes(bytes) % 8 == 0 && 6536 + PoolBytes(bytes) + 16 <= bytes
  {
  }

  function PoolBlocks(base: int, last: int, poolBytes: int): (k: Blocks)
  {
    Blocks(map[base + 6528 := poolBytes, last := 0], {base + 6528}, {last})
  }

  lemma {:induction false} PoolBlocksShape(base: int, last: int, poolBytes: int)
    requires last > base + 6528
    ensures var k := PoolBlocks(base, last, poolBytes);
      k.free == {base + 6528} && k.size.Keys == {base + 6528, last} && k.size[base + 6528] == poolBytes
  {
  }

  ghost predicate EmptyHeads(m: Mem, base: int)
  {
    forall i {:trigger Slot(base, i)} :: 0 <= i < LISTS ==> m[Slot(base, i)] == base
  }

  ghost function EmptyTable(base: int): (t: seq<int>)
    ensures |t| == LISTS && forall i :: 0 <= i < LISTS ==> t[i] == base
  {
    seq(LISTS, _ => base)
  }

  lemma {:induction false} EmptyLists(m: Mem, base: int, sl: seq<nat>)
    requires base > 0
    requires |sl| == FL_INDEX_COUNT && forall f :: 0 <= f < FL_INDEX_COUNT ==> sl[f] == 0
    requires EmptyHeads(m, base)
    ensures Lists(map[], EmptyTable(base), base) && Links(m, map[], EmptyTable(base), base)
    ensures Maps(0, sl, EmptyTable(base), base)
  {
    forall f, s {:trigger Bit(sl[f], s)} | 0 <= f < FL_INDEX_COUNT && 0 <= s < SL_INDEX_COUNT
      ensures !Bit(sl[f], s)
    {
      ShrZero(s);
    }
    forall f: nat {:trigger Bit(0, f)} | f < FL_INDEX_COUNT ensures !Bit(0, f) {
      ShrZero(f);
    }
  }

  lemma {:induction false} PoolChain(m: Mem, base: int, last: int, poolBytes: int)
    requires base > 0 && base % 8 == 0 && BLOCK_SIZE_MIN <= poolBytes < BLOCK_SIZE_MAX && poolBytes % 8 == 0
    requires last == base + 6536 + poolBytes
    requires m[base + 6536] == Pack(poolBytes, true, false) && m[last + 8] == Pack(0, false, true)
      && m[last] == base + 6528
    ensures Chain(m, PoolBlocks(base, last, poolBytes), base + 6528, last, NOWHERE)
  {
    var k := PoolBlocks(base, last, poolBytes);
    assert last % 8 == 0;
    assert Next(k.size, base + 6528) == last;
  }

  lemma {:induction false} PoolHeaders(m0: Mem, m1: Mem, b: int, poolBytes: int)
    requires m1 == SetPrevUsed(SetFree(SetSize(m0, b, poolBytes), b), b) && poolBytes % 8 == 0
    ensures m1[b + 8] == Pack(poolBytes, true, false)
    ensures forall a :: a != b + 8 ==> m1[a] == m0[a]
  {
    var w := m0[b + 8];
    PackGarbage(w, poolBytes);
    PackParts(poolBytes, FreeBit(w), PrevFreeBit(w));
    PackParts(poolBytes, true, PrevFreeBit(w));
  }

  lemma {:induction false} SentinelHeaders(m2: Mem, m3: Mem, b: int, n: int)
    requires m3 == SetPrevFree(SetUsed(SetSize(m2[n := b], n, 0), n), n)
    ensures m3[n + 8] == Pack(0, false, true) && m3[n] == b
    ensures forall a :: a != n && a != n + 8 ==> m3[a] == m2[a]
  {
    var w := m2[n + 8];
    PackGarbage(w, 0);
    PackParts(0, FreeBit(w), PrevFreeBit(w));
    PackParts(0, false, PrevFreeBit(w));
  }

  /** The heap after `tlsf_add_pool` is sound and holds one free block. */
  lemma {:induction false} FreshPool(m0: Mem, m1: Mem, m2: Mem, m3: Mem, fl: nat, sl: seq<nat>, base: int, last: int,
      poolBytes: nat, i: Index)
    requires base > 0 && base % 8 == 0 && BLOCK_SIZE_MIN <= poolBytes < BLOCK_SIZE_MAX && poolBytes % 8 == 0
    requires last == base + 6536 + poolBytes
    requires EmptyHeads(m0, base)
    requires i == MappingInsert(poolBytes) && i.fl < FL_INDEX_COUNT && i.sl < SL_INDEX_COUNT
    requires fl == SetBit(0, i.fl) && |sl| == FL_INDEX_COUNT && sl[i.fl] == SetBit(0, i.sl)
    requires forall f :: 0 <= f < FL_INDEX_COUNT && f != i.fl ==> sl[f] == 0
    requires m1 == SetPrevUsed(SetFree(SetSize(m0, base + 6528, poolBytes), base + 6528), base + 6528)
    requires m2 == InsertM(m1, base, base + 6528, i.Flat())
    requires m3 == SetPrevFree(SetUsed(SetSize(m2[last := base + 6528], last, 0), last), last)
    ensures Sound(m3, fl, sl, PoolBlocks(base, last, poolBytes),
      InsertN(map[], EmptyTable(base), base, base + 6528, i.Flat()),
                  EmptyTable(base)[i.Flat() := base + 6528], base, last, NOWHERE)
    ensures Settled(PoolBlocks(base, last, poolBytes), InsertN(map[], EmptyTable(base), base, base + 6528, i.Flat()))
    ensures Outside(m0, m3, base, last)
  {
    hide MappingInsert, SetBit, Pack, SetSize, SetFree, SetUsed, SetPrevFree, SetPrevUsed;
    var b, q := base + 6528, i.Flat();
    var k, node, tab := PoolBlocks(base, last, poolBytes), InsertN(map[], EmptyTable(base), base, b, q),
      EmptyTable(base)[q := b];
    PoolHeaders(m0, m1, b, poolBytes);
    SentinelHeaders(m2, m3, b, last);
    assert m2[b + 8] == m1[b + 8];
    PoolChain(m3, base, last, poolBytes);
    assert Lists(node, tab, base) && Links(m3, node, tab, base) by {
      FreshLinks(m1, m2, m3, base, last, b, q);
    }
    assert Maps(fl, sl, tab, base) by { FreshMaps(m0, fl, sl, base, b, i); }
    assert Filed(k, node) by { assert node == map[b := Node(base, base, q, 0)]; }
  }

  lemma {:induction false} FreshLinks(m1: Mem, m2: Mem, m3: Mem, base: int, last: int, b: int, q: int)
    requires base > 0 && b == base + 6528 && last >= b + 32 && 0 <= q < LISTS
    requires EmptyHeads(m1, base)
    requires m2 == InsertM(m1, base, b, q)
    requires forall a :: a != last && a != last + 8 ==> m3[a] == m2[a]
    ensures Lists(InsertN(map[], EmptyTable(base), base, b, q), EmptyTable(base)[q := b], base)
    ensures Links(m3, InsertN(map[], EmptyTable(base), base, b, q), EmptyTable(base)[q := b], base)
  {
    InsertLists(map[], EmptyTable(base), base, b, q);
    InsertHeads(m1, EmptyTable(base), base, b, q);
    assert m1[Slot(base, q)] == base;
    assert m2[b + 16] == base && m2[b + 24] == base;
  }

  lemma {:induction false} FreshMaps(m0: Mem, fl: nat, sl: seq<nat>, base: int, b: int, i: Index)
    requires base > 0 && b > base && i.fl < FL_INDEX_COUNT && i.sl < SL_INDEX_COUNT
    requires fl == SetBit(0, i.fl) && |sl| == FL_INDEX_COUNT && sl[i.fl] == SetBit(0, i.sl)
    requires forall f :: 0 <= f < FL_INDEX_COUNT && f != i.fl ==> sl[f] == 0
    requires EmptyHeads(m0, base)
    ensures Maps(fl, sl, EmptyTable(base)[i.Flat() := b], base)
  {
    hide SetBit;
    var zeros := sl[i.fl := 0];
    EmptyLists(m0, base, zeros);
    InsertMaps(0, zeros, EmptyTable(base), base, b, i.fl, i.sl);
    assert zeros[i.fl := SetBit(0, i.sl)] == sl;
  }

  function Min(a: int, b: int): int { if a < b then a else b }

  /** As `Kept`, for two blocks that may differ. */
  ghost predicate KeptBut(m: Mem, k: Blocks, m': Mem, k': Blocks, x: int, y: int)
  {
    && (forall u {:trigger Used(k, u)} {:trigger Used(k', u)} :: u != x && u != y ==> (Used(k, u) <==> Used(k', u)))
    && (forall u :: Used(k, u) && u != x && u != y ==> k'.size[u] == k.size[u])
    && (forall u, a {:trigger Used(k, u), m'[a]} ::
         Used(k, u) && u != x && u != y && u + 16 <= a < u + 16 + k.size[u] ==>
          m'[a] == m[a])
  }

  // ----- writing into and moving live payloads -----

  lemma {:induction false} PayloadWriteChain(m: Mem, m': Mem, k: Blocks, first: int, last: int, b: int)
    requires Chain(m, k, first, last, NOWHERE) && Used(k, b)
    requires forall a {:trigger m'[a]} :: a < b + 16 || Next(k.size, b) < a ==> m'[a] == m[a]
    ensures Chain(m', k, first, last, NOWHERE)
  {
    assert Next(k.size, b) !in k.prevFree;
    forall c | c in k.size ensures m'[c + 8] == m[c + 8] {
      assert c > b ==> Next(k.size, b) <= c;
    }
    forall c {:trigger PrevPhys(m', c)} | c in k.prevFree ensures PrevPhys(m', c) == PrevPhys(m, c) {
      assert c in k.size && c != Next(k.size, b);
      assert c > b ==> Next(k.size, b) <= c;
    }
  }

  /** Writing anywhere in the payload of a used block, its shared last word included,
      keeps the heap sound. */
  lemma {:induction false} PayloadWriteSound(m: Mem, m': Mem, fl: nat, sl: seq<nat>, k: Blocks, node: map<int, Node>,
      tab: seq<int>, base: int, last: int, b: int)
    requires Sound(m, fl, sl, k, node, tab, base, last, NOWHERE) && Used(k, b)
    requires forall a {:trigger m'[a]} :: a < b + 16 || Next(k.size, b) < a ==> m'[a] == m[a]
    ensures Sound(m', fl, sl, k, node, tab, base, last, NOWHERE)
    ensures Kept(m, k, m', k, b) && Outside(m, m', base, last)
  {
    var n := Next(k.size, b);
    assert b != last && n in k.size;
    PayloadWriteChain(m, m', k, base + 6528, last, b);
    assert Within(m, m', b, n);
    assert ListedApart(k, k, node, b, n) by { FlagListed(k, node, base, last, b, k); }
    HeaderStep(m, fl, sl, k, node, tab, base, last, NOWHERE, m', k, b, n, NOWHERE);
    WithinKept(m, k, m', k, base + 6528, last, b, n, b);
  }

  lemma {:induction false} MemcpyKept(m: Mem, fl: nat, sl: seq<nat>, k: Blocks, node: map<int, Node>, tab: seq<int>,
      base: int, last: int, b: int, src: int, n: nat)
    requires Sound(m, fl, sl, k, node, tab, base, last, NOWHERE) && Used(k, b) && n <= k.size[b] && k.size[b] % 8 == 0
    ensures var m' := Memcpy(m, b + 16, src, n);
      && Sound(m', fl, sl, k, node, tab, base, last, NOWHERE)
      && Kept(m, k, m', k, b) && Outside(m, m', base, last) && BytesMoved(m, m', src, b + 16, n)
  {
    hide Sound, Kept, Outside, Memcpy, BytesMoved;
    var m' := Memcpy(m, b + 16, src, n);
    MemcpySpec(m, b + 16, src, n, m');
    PayloadWriteSound(m, m', fl, sl, k, node, tab, base, last, b);
  }

  lemma {:induction false} MoveTo(m0: Mem, k0: Blocks, m1: Mem, k1: Blocks, b: int, q: int)
    requires Used(k0, b) && Served(m0, m1, k0, k1, q, 0)
    ensures b != q && Used(k1, b) && k1.size[b] == k0.size[b] && SamePayload(m0, m1, b, k0.size[b])
  {
  }

  /** After allocate, copy and free, the bytes are at the new place and everyone else's
      are where they were. */
  lemma {:induction false} MovedAway(m0: Mem, k0: Blocks, m1: Mem, k1: Blocks, m2: Mem, m3: Mem, k3: Blocks, b: int,
      q: int, n: nat)
    requires Used(k0, b) && !Used(k0, q) && Used(k1, q) && b != q
    requires Kept(m0, k0, m1, k1, q) && Kept(m1, k1, m2, k1, q) && Kept(m2, k1, m3, k3, b)
    requires n <= k0.size[b] && n <= k1.size[q] && BytesMoved(m1, m2, b + 16, q + 16, n)
    ensures Used(k3, q) && k3.size[q] == k1.size[q]
    ensures BytesMoved(m0, m3, b + 16, q + 16, n)
    ensures KeptBut(m0, k0, m3, k3, b, q)
  {
    assert BytesMoved(m0, m1, b + 16, b + 16, n) by { SameWordsBytes(m0, m1, b + 16, n); }
    assert BytesMoved(m2, m3, q + 16, q + 16, n) by { SameWordsBytes(m2, m3, q + 16, n); }
    assert BytesMoved(m0, m3, b + 16, q + 16, n) by { BytesChain(m0, m1, m2, m3, b + 16, q + 16, n); }
    hide BytesMoved;
    KeptTrans(m0, k0, m1, k1, m2, k1, q);
    KeptTwo(m0, k0, m2, k1, m3, k3, q, b);
  }

  lemma {:induction false} BytesChain(m0: Mem, m1: Mem, m2: Mem, m3: Mem, p: int, q: int, n: nat)
    requires BytesMoved(m0, m1, p, p, n) && BytesMoved(m1, m2, p, q, n) && BytesMoved(m2, m3, q, q, n)
    ensures BytesMoved(m0, m3, p, q, n)
  {
    hide ByteAt;
  }

  lemma {:induction false} KeptTwo(m0: Mem, k0: Blocks, m1: Mem, k1: Blocks, m2: Mem, k2: Blocks, x: int, y: int)
    requires Kept(m0, k0, m1, k1, x) && Kept(m1, k1, m2, k2, y)
    ensures KeptBut(m0, k0, m2, k2, y, x)
  {
    forall u, a {:trigger Used(k0, u), m2[a]} | Used(k0, u) && u != x && u != y && u + 16 <= a < u + 16 + k0.size[u]
      ensures m2[a] == m0[a]
    {
      assert Used(k1, u);
      assert m1[a] == m0[a];
    }
  }

  lemma {:induction false} PayloadBytes(m: Mem, m': Mem, b: int, n: int, c: int)
    requires SamePayload(m, m', b, n) && 0 <= c <= n
    ensures BytesMoved(m, m', b + 16, b + 16, c)
  {
    SameWordsBytes(m, m', b + 16, c);
  }

  // ----- growing a block over its free successor -----

  /** Used block b is too small, and the block after it is in use or does not help. */
  ghost predicate MustMove(k: Blocks, b: int, adjust: int)
    requires b in k.size
  {
    var n := Next(k.size, b);
    adjust > k.size[b] && (n !in k.free || n !in k.size || adjust > k.size[b] + k.size[n] + 8)
  }

  /** Used block b, joined with the free block after it if it is too small, and then cut to
      size. */
  function Fitted(k: Blocks, b: int, adjust: int): (r: Blocks)
    requires b in k.size
  {
    var n := Next(k.size, b);
    if adjust > k.size[b] && n in k.size then CutUsed(MarkUsedB(AbsorbB(k, b, n), b), b, adjust)
    else CutUsed(k, b, adjust)
  }

  lemma {:induction false} GrownShape(k0: Blocks, k1: Blocks, node: map<int, Node>, b: int, n: int, base: int,
      last: int)
    requires Used(k0, b) && n in k0.size && n in k0.free && n == Next(k0.size, b) && k1 == AbsorbB(k0, b, n)
    requires node.Keys == k0.free - {n}
    ensures b in k1.size && b !in k1.free && b !in node && k1.size[b] == k0.size[b] + 8 + k0.size[n]
  {
  }

  lemma {:induction false} GrownSettled(k0: Blocks, k1: Blocks, k2: Blocks, node: map<int, Node>, b: int, n: int)
    requires Used(k0, b) && n in k0.size && n in k0.free && n == Next(k0.size, b) && k0.size[n] >= 0
      && k1 == AbsorbB(k0, b, n)
    requires (forall c :: c in k0.free ==> c !in k0.prevFree) && node.Keys == k0.free - {n} && k2 == MarkUsedB(k1, b)
    ensures Settled(k2, node) && Used(k2, b) && k2.size[b] == k1.size[b]
  {
  }

  lemma {:induction false} MarkUsedPayload(m1: Mem, m2: Mem, b: int, n: int)
    requires forall a :: b + 16 <= a < b + 16 + n ==> m2[a] == m1[a]
    ensures SamePayload(m1, m2, b, n)
  {
  }

  function SplitUsed(k: Blocks, b: int, s: int): (r: Blocks)
    requires b in k.size
  {
    var rest, n := b + 8 + s, Next(k.size, b);
    Blocks(k.size[b := s][rest := k.size[b] - s - 8], k.free + {rest}, k.prevFree + {n} - {rest})
  }

  /** A used block cut to size bytes, if what is over can be a block: the rest is a free
      block, joined with the one after it if that is free. */
  function CutUsed(k: Blocks, b: int, size: int): (r: Blocks)
    requires b in k.size
  {
    if k.size[b] < size + 32 then k
    else
      var k1, rest, n := SplitUsed(k, b, size), b + 8 + size, Next(k.size, b);
      if n in k.free && n in k.size then AbsorbB(k1, rest, n) else k1
  }

  lemma {:induction false} CutUsedIs(k: Blocks, k1: Blocks, k2: Blocks, b: int, size: int)
    requires b in k.size && size + 32 <= k.size[b] && k1 == SplitUsed(k, b, size) && b + 8 + size !in k.free
    requires var rest := b + 8 + size;
      var n := rest + 8 + k1.size[rest];
      if n in k1.free then n in k1.size && k2 == AbsorbB(k1, rest, n) else k2 == k1
    ensures k2 == CutUsed(k, b, size)
  {
    hide AbsorbB;
    assert b + 8 + size + 8 + k1.size[b + 8 + size] == Next(k.size, b);
  }

  /** Block b is cut to s bytes, and the rest after it is a held free block. */
  ghost predicate TrimmedUsed(m: Mem, k: Blocks, m2: Mem, k2: Blocks, node: map<int, Node>, base: int, last: int,
      b: int, s: int)
  {
    var rest := b + 8 + s;
    && Kept(m, k, m2, k2, b) && Outside(m, m2, base, last) && SamePayload(m, m2, b, s)
    && Used(k2, b) && k2.size[b] == s && rest in k2.size && rest in k2.free && rest !in k2.prevFree && rest !in node
    && node.Keys == k2.free - {rest} && Pairs(k2, Next(k2.size, rest), Next(k2.size, rest))
    && NOWHERE !in k.size && NOWHERE !in k2.size
  }

  lemma {:induction false} TrimUsedSound(m: Mem, fl: nat, sl: seq<nat>, k: Blocks, node: map<int, Node>,
      tab: seq<int>, base: int, last: int, b: int, s: int)
    requires Sound(m, fl, sl, k, node, tab, base, last, NOWHERE) && Settled(k, node) && Used(k, b)
    requires 24 <= s && s + 32 <= k.size[b] && s % 8 == 0
    ensures TrimmedUsed(m, k, SetPrevUsed(Split(m, b, s), b + 8 + s), SplitUsed(k, b, s), node, base, last, b, s)
    ensures Sound(SetPrevUsed(Split(m, b, s), b + 8 + s), fl, sl, SplitUsed(k, b, s), node, tab, base, last, NOWHERE)
  {
    hide Sound, Kept, Outside, Split, SetPrevUsed, PrevFreeBit, Pairs;
    var rest, g := b + 8 + s, PrevFreeBit(m[b + 8 + s + 8]);
    var m1, k1 := Split(m, b, s), SplitB(k, b, s, g);
    Reading(m, fl, sl, k, node, tab, base, last, NOWHERE, b);
    UsedNotLast(m, fl, sl, k, node, tab, base, last, b);
    SplitSound(m, fl, sl, k, node, tab, base, last, b, s, k1);
    var m2, k2 := SetPrevUsed(m1, rest), SplitUsed(k, b, s);
    assert k2 == FlagUsedB(k1, rest);
    FlagUsedSound(m1, fl, sl, k1, node, tab, base, last, b, rest);
    KeptTrans(m, k, m1, k1, m2, k2, b);
    OutsideTrans(m, m1, m2, base, last);
    TrimUsedPairs(k, node, b, s);
  }

  lemma {:induction false} TrimUsedPairs(k: Blocks, node: map<int, Node>, b: int, s: int)
    requires Settled(k, node) && b in k.size && b + 8 + s !in k.size
    ensures var k2, rest := SplitUsed(k, b, s), b + 8 + s;
      Pairs(k2, Next(k2.size, rest), Next(k2.size, rest))
  {
  }

  lemma {:induction false} PayloadKept(m: Mem, k: Blocks, m': Mem, k': Blocks, b: int)
    requires Kept(m, k, m', k', NOWHERE) && Used(k, b) && b != NOWHERE
    ensures Used(k', b) && k'.size[b] == k.size[b] && SamePayload(m, m', b, k.size[b])
  {
  }

  lemma {:induction false} PayloadTrans(m0: Mem, m1: Mem, m2: Mem, b: int, n1: int, n2: int)
    requires SamePayload(m0, m1, b, n1) && SamePayload(m1, m2, b, n2)
    ensures SamePayload(m0, m2, b, if n1 < n2 then n1 else n2)
  {
  }

  lemma {:induction false} UsedNotLast(m: Mem, fl: nat, sl: seq<nat>, k: Blocks, node: map<int, Node>, tab: seq<int>,
      base: int, last: int, b: int)
    requires Sound(m, fl, sl, k, node, tab, base, last, NOWHERE) && Used(k, b)
    ensures b != last && Next(k.size, b) in k.size
  {
  }

  /** Freeing the block left no pair of free neighbours. */
  lemma {:induction false} MergedHolding(k: Blocks, k': Blocks, node: map<int, Node>, b: int)
    requires b in k.size && b in k.free && b !in k.prevFree && Pairs(k, Next(k.size, b), Next(k.size, b))
    requires var n := Next(k.size, b);
      if n in k.free then n in k.size && n != b && k' == AbsorbB(k, b, n) && node.Keys == k.free - {b} - {n}
      else k' == k && node.Keys == k.free - {b}
    ensures Holding(k', node, b) && b in k'.size && forall c :: c in k'.free ==> c !in k'.prevFree
    ensures !Used(k, b) && !Used(k', b)
  {
  }

  lemma {:induction false} StillFree(m: Mem, k: Blocks, m': Mem, k': Blocks, b: int)
    requires Kept(m, k, m', k', NOWHERE) && b in k.free && b != NOWHERE
    ensures !Used(k', b)
  {
  }

  /** Nothing changed that a caller or the allocator could notice. */
  ghost predicate Same(m: Mem, m': Mem, k: Blocks, k': Blocks, node: map<int, Node>, node': map<int, Node>)
  {
    m' == m && k' == k && node' == node
  }

  /** Block b was not in use and now is, with at least n payload bytes; every other used
      block is as it was. */
  ghost predicate Served(m: Mem, m': Mem, k: Blocks, k': Blocks, b: int, n: int)
  {
    !Used(k, b) && Used(k', b) && n <= k'.size[b] && Kept(m, k, m', k', b)
  }

  /** A free block cut to size bytes, if what is over can be a block. */
  function CutFree(k: Blocks, b: int, size: int): (r: Blocks)
    requires b in k.size
  {
    if k.size[b] < size + 32 then k else SplitFree(k, b, size)
  }

  /** Free block b is handed out: whole if less than 32 bytes are over, and otherwise with
      exactly size bytes, and the rest is one free block after it. */
  ghost predicate Carved(k: Blocks, k': Blocks, b: int, size: int)
  {
    && b in k.size && b in k.free && b in k'.size
    && if k.size[b] < size + 32 then k'.size == k.size && k'.free == k.free - {b}
       else
         var rest := b + 8 + size;
         k'.size == k.size[b := size][rest := k.size[b] - size - 8] && k'.free == k.free - {b} + {rest}
  }

  lemma {:induction false} CutCarved(k: Blocks, b: int, size: int)
    requires b in k.size && b in k.free && size > 0
    ensures b in CutFree(k, b, size).size && Carved(k, MarkUsedB(CutFree(k, b, size), b), b, size)
  {
  }

  lemma {:induction false} AdjustAny(size: nat)
    requires size < SIZE_MODULUS
    ensures var a := AdjustRequestSize(size, 3);
      a == 0 || (24 <= a < BLOCK_SIZE_MAX && a % 8 == 0 && (size <= SIZE_MODULUS - 8 ==> size <= a))
  {
    if size + 8 <= SIZE_MODULUS {
      AdjustWord(size);
    } else {
      AdjustWordWraps(size);
    }
  }

  lemma {:induction false} HeldBlock(m: Mem, fl: nat, sl: seq<nat>, k: Blocks, node: map<int, Node>, tab: seq<int>,
      base: int, last: int, b: int)
    requires Sound(m, fl, sl, k, node, tab, base, last, NOWHERE) && b in k.free
    ensures b in k.size && b != last && b > 0 && NOWHERE !in k.size && 24 <= k.size[b]
  {
  }

  lemma {:induction false} NowhereOutside(m0: Mem, k0: Blocks, m1: Mem, k1: Blocks, m2: Mem, k2: Blocks, base: int,
      last: int, b: int)
    requires Kept(m0, k0, m1, k1, NOWHERE) && Kept(m1, k1, m2, k2, b) && Outside(m0, m1, base, last)
      && Outside(m1, m2, base, last)
    requires NOWHERE !in k0.size && NOWHERE !in k1.size && NOWHERE !in k2.size
    ensures Kept(m0, k0, m2, k2, b) && Outside(m0, m2, base, last)
  {
    KeptSeq(m0, k0, m1, k1, m2, k2, NOWHERE, b, b);
  }

  lemma {:induction false} TrimFreeSound(m: Mem, fl: nat, sl: seq<nat>, k: Blocks, node: map<int, Node>,
      tab: seq<int>, base: int, last: int, b: int, s: int)
    requires Sound(m, fl, sl, k, node, tab, base, last, NOWHERE) && Holding(k, node, b) && b in k.size && Pairs(k, b, b)
    requires 24 <= s && s + 32 <= k.size[b] && s % 8 == 0
    ensures var m2, k2, rest := SetPrevFree(LinkNext(Split(m, b, s), b), b + 8 + s), SplitFree(k, b, s), b + 8 + s;
      && Sound(m2, fl, sl, k2, node, tab, base, last, NOWHERE)
      && LinkNext(SetPrevFree(Split(m, b, s), rest), b) == m2
      && Kept(m, k, m2, k2, NOWHERE) && Outside(m, m2, base, last)
      && TrimShape(k, k2, node, b, s, rest) && NOWHERE !in k.size && NOWHERE !in k2.size
  {
    hide Sound, Kept, Outside, Split, LinkNext, SetPrevFree, PrevFreeBit, Pairs, TrimShape;
    var rest, g := b + 8 + s, PrevFreeBit(m[b + 8 + s + 8]);
    var m1, k1 := Split(m, b, s), SplitB(k, b, s, g);
    FreeNeighbour(m, fl, sl, k, node, tab, base, last, b);
    SplitSound(m, fl, sl, k, node, tab, base, last, b, s, k1);
    var m2, k2 := SetPrevFree(LinkNext(m1, b), rest), SplitFree(k, b, s);
    assert k2 == FlagFreeB(k1, rest);
    FlagFreeSound(m1, fl, sl, k1, node, tab, base, last, b, rest);
    KeptTrans(m, k, m1, k1, m2, k2, b);
    KeptAll(m, k, m2, k2, b);
    OutsideTrans(m, m1, m2, base, last);
    TrimShapeHolds(k, node, b, s);
  }

  /** After a free block that is not itself preceded by one comes a used block. */
  lemma {:induction false} FreeNeighbour(m: Mem, fl: nat, sl: seq<nat>, k: Blocks, node: map<int, Node>,
      tab: seq<int>, base: int, last: int, b: int)
    requires Sound(m, fl, sl, k, node, tab, base, last, NOWHERE) && b in k.free && b in k.size && Pairs(k, b, b)
    ensures b != last && Next(k.size, b) in k.size && Next(k.size, b) !in k.free && Next(k.size, b) in k.prevFree
    ensures NOWHERE !in k.size && b > 0
  {
    assert Next(k.size, b) in k.prevFree;
  }

  lemma {:induction false} TrimShapeHolds(k: Blocks, node: map<int, Node>, b: int, s: int)
    requires Holding(k, node, b) && b in k.size && Pairs(k, b, b) && Next(k.size, b) !in k.free && 0 < s
    requires b + 8 + s !in k.size && b + 8 + s !in node && b + 8 + s != Next(k.size, b)
    ensures TrimShape(k, SplitFree(k, b, s), node, b, s, b + 8 + s)
  {
  }

  ghost predicate TrimShape(k: Blocks, k2: Blocks, node: map<int, Node>, b: int, s: int, rest: int)
    requires b in k.size
  {
    && b in k2.size && k2.size[b] == s && Next(k2.size, b) == rest && b in k2.free
    && rest in k2.size && k2.size[rest] == k.size[b] - s - 8 && rest in k2.free && rest !in node
    && node.Keys == k2.free - {b} - {rest} && Pairs(k2, b, rest)
  }

  function SplitFree(k: Blocks, b: int, s: int): (r: Blocks)
    requires b in k.size
  {
    var rest, n := b + 8 + s, Next(k.size, b);
    Blocks(k.size[b := s][rest := k.size[b] - s - 8], k.free + {rest}, k.prevFree + {n, rest})
  }

  lemma {:induction false} ControlOutside(m: Mem, m': Mem, base: int, last: int)
    requires base + 6528 <= last && forall a {:trigger m'[a]} :: a < base || base + 6528 < a ==> m'[a] == m[a]
    ensures Outside(m, m', base, last)
  {
  }

  lemma {:induction false} OutsideTrans(m0: Mem, m1: Mem, m2: Mem, base: int, last: int)
    requires Outside(m0, m1, base, last) && Outside(m1, m2, base, last)
    ensures Outside(m0, m2, base, last)
  {
  }

  /** What the words of block b say in a sound heap; with the previous-free bit set, the
      back link leads to a free neighbour. */
  lemma {:induction false} Reading(m: Mem, fl: nat, sl: seq<nat>, k: Blocks, node: map<int, Node>, tab: seq<int>,
      base: int, last: int, stale: int, b: int)
    requires Sound(m, fl, sl, k, node, tab, base, last, stale) && b in k.size
    ensures SizeOf(m[b + 8]) == k.size[b] && FreeBit(m[b + 8]) == (b in k.free)
      && PrevFreeBit(m[b + 8]) == (b in k.prevFree)
    ensures 0 <= k.size[b] <= 0xFFFF_FFF8 && b % 8 == 0 && k.size[b] % 8 == 0
    ensures b != last ==> 24 <= k.size[b] && Next(k.size, b) in k.size && b < Next(k.size, b) <= last
    ensures 0 < base && base + 6528 <= b <= last && last in k.size && last !in k.free && NOWHERE !in k.size
    ensures b in k.prevFree && b != stale ==> var p := m[b];
      p in k.size && p in k.free && p != last && Next(k.size, p) == b && p < b
    ensures b in node ==> b in k.free
    ensures |sl| == FL_INDEX_COUNT && |tab| == LISTS
  {
    HeaderFacts(m, k, base, last, stale, b);
    if b in k.prevFree && b != stale {
      assert PrevPhys(m, b) == m[b];
    }
  }

  lemma {:induction false} ReadingFree(m: Mem, fl: nat, sl: seq<nat>, k: Blocks, node: map<int, Node>, tab: seq<int>,
      base: int, last: int, b: int, i: Index)
    requires Sound(m, fl, sl, k, node, tab, base, last, NOWHERE) && b in k.free
    requires i == MappingInsert(SizeOf(m[b + 8]))
    ensures b in k.size && i.fl < FL_INDEX_COUNT && i.sl < SL_INDEX_COUNT && 0 <= i.Flat() < LISTS
    ensures 0 <= k.size[b] && i.Flat() == Class(k.size[b]) && |sl| == FL_INDEX_COUNT
    ensures b in node ==> node[b].cls == i.Flat()
  {
    FreeFacts(m, k, base, last, b);
    if b in node {
      assert node[b].cls == Class(k.size[b]);
    }
  }

  /** The first n payload bytes of block b are the same words. */
  ghost predicate SamePayload(m: Mem, m': Mem, b: int, n: int)
  {
    forall a {:trigger m'[a]} :: b + 16 <= a < b + 16 + n ==> m'[a] == m[a]
  }

  lemma {:induction false} OutsideSame(m: Mem, base: int, last: int)
    ensures Outside(m, m, base, last)
  {
  }

  lemma {:induction false} PayloadSame(m: Mem, b: int, n: int)
    ensures SamePayload(m, m, b, n)
  {
  }

  lemma {:induction false} KeptSame(m: Mem, k: Blocks, x: int)
    ensures Kept(m, k, m, k, x)
  {
  }

  /** Merging removes exactly the pair of neighbours it merged. */
  lemma {:induction false} MergeShape(k: Blocks, base: int, last: int, p: int, b: int)
    requires Tiles(k.size, base + 6528, last) && Flags(k, base + 6528, last, NOWHERE)
    requires p in k.size && b in k.size && p != last && b != last && b == Next(k.size, p) && b in k.free
    ensures var k' := AbsorbB(k, p, b);
      && p in k'.size && Next(k'.size, p) == Next(k.size, b) && k'.size[p] == k.size[p] + 8 + k.size[b]
      && k'.free == k.free - {b} && NOWHERE !in k.size && NOWHERE !in k'.size
      && (p in k.prevFree <==> p in k'.prevFree)
      && (forall c :: c in k'.free && c in k'.prevFree ==> c in k.free && c in k.prevFree && c != b)
  {
  }

  lemma {:induction false} MergePrevSound(m0: Mem, m: Mem, fl: nat, sl: seq<nat>, k: Blocks, node: map<int, Node>,
      tab: seq<int>, base: int, last: int, p: int, b: int)
    requires Sound(m, fl, sl, k, node, tab, base, last, NOWHERE)
    requires p in k.size && b in k.size && p != last && b == Next(k.size, p) && p in k.free && b in k.free
    requires node.Keys == k.free - {b} - {p}
    requires Pairs(k, b, Next(k.size, b))
    requires Kept(m0, k, m, k, NOWHERE) && Outside(m0, m, base, last)
    ensures var m', k' := Absorb(m, p, b), AbsorbB(k, p, b);
      && Sound(m', fl, sl, k', node, tab, base, last, NOWHERE)
      && Holding(k', node, p) && p in k'.size && p !in k'.prevFree && Pairs(k', Next(k'.size, p), Next(k'.size, p))
      && Kept(m0, k, m', k', NOWHERE) && Outside(m0, m', base, last)
  {
    assert b != last;
    AbsorbSound(m, fl, sl, k, node, tab, base, last, p, b, NOWHERE);
    MergeShape(k, base, last, p, b);
    hide Sound;
    KeptAll(m, k, Absorb(m, p, b), AbsorbB(k, p, b), p);
    KeptSeq(m0, k, m, k, Absorb(m, p, b), AbsorbB(k, p, b), NOWHERE, NOWHERE, NOWHERE);
  }

  lemma {:induction false} MergeNextSound(m0: Mem, m: Mem, fl: nat, sl: seq<nat>, k: Blocks, node: map<int, Node>,
      tab: seq<int>, base: int, last: int, b: int, n: int)
    requires Sound(m, fl, sl, k, node, tab, base, last, NOWHERE)
    requires b in k.size && n in k.size && b != last && n == Next(k.size, b) && n in k.free && b !in node && n !in node
    requires Kept(m0, k, m, k, NOWHERE) && Outside(m0, m, base, last)
    ensures var m', k' := Absorb(m, b, n), AbsorbB(k, b, n);
      && b in k'.size
      && Sound(m', fl, sl, k', node, tab, base, last, if b in k'.free then NOWHERE else Next(k'.size, b))
      && Kept(m0, k, m', k', b) && Outside(m0, m', base, last)
      && (Used(k, b) ==> SamePayload(m0, m', b, k.size[b]))
  {
    assert n != last && b != n;
    var stale := if b in k.free then NOWHERE else Next(k.size, n);
    AbsorbSound(m, fl, sl, k, node, tab, base, last, b, n, stale);
    MergeShape(k, base, last, b, n);
    hide Sound;
    KeptSeq(m0, k, m, k, Absorb(m, b, n), AbsorbB(k, b, n), NOWHERE, b, b);
  }

  lemma {:induction false} HeadsPositive(m: Mem, fl: nat, sl: seq<nat>, k: Blocks, node: map<int, Node>,
      tab: seq<int>, base: int, last: int)
    requires Sound(m, fl, sl, k, node, tab, base, last, NOWHERE)
    ensures forall q {:trigger tab[q]} :: 0 <= q < LISTS ==> tab[q] > 0
    ensures forall q {:trigger tab[q]} :: 0 <= q < LISTS && tab[q] != base ==> tab[q] in node && node[tab[q]].cls == q
  {
    forall q {:trigger tab[q]} | 0 <= q < LISTS ensures tab[q] > 0 {
      if tab[q] != base {
        assert tab[q] in k.size;
      }
    }
  }
}
