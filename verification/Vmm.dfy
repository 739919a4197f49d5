/** `map_page`, `unmap_page` and `virt_to_phys_user` over tables that come from the page
    allocator. */
module Vmm {
  import opened Shifts
  import opened BuddyTree
  import opened Pmm
  import opened Wrappers
  import opened VmmState
  import opened VmmSteps
  import opened VmmClear
  import opened VmmRights

  /** No table lies in a free page. */
  ghost predicate NotFree(S: set<Blk>, node: map<nat, Node>)
  {
    forall f: nat {:trigger f in node} {:trigger Covers(S, f)} :: f in node ==> !Covers(S, f)
  }

  ghost predicate Sound(m: Memory, root: nat, node: map<nat, Node>)
  {
    Tree(m, root, node) && LargeAligned(m, node)
  }

  /** Page f is a table, or free and so may become one. */
  ghost predicate Owned(node: map<nat, Node>, S: set<Blk>, f: nat) { f in node || Covers(S, f) }

  /** Tables stay where they hang, and new ones come from the free pages. */
  ghost predicate Grown(node: map<nat, Node>, S: set<Blk>, node': map<nat, Node>, S': set<Blk>)
  {
    && (forall f {:trigger f in node} {:trigger f in node'} :: f in node ==> f in node' && node'[f] == node[f])
    && (forall f: nat {:trigger Owned(node', S', f)} :: Owned(node', S', f) ==> Owned(node, S, f))
  }

  /** The page for address v is part of a 2 MiB mapping. */
  predicate InLarge(m: Memory, root: int, v: nat)
  {
    var r := Resolve(m, root, 4, v);
    r.Some? && r.value.large
  }

  class PageTables {
    const pmm: Allocator
    var root: nat
    var mem: Memory
    ghost var node: map<nat, Node>

    ghost predicate Valid()
      reads this, pmm
    {
      pmm.Valid() && Sound(mem, root, node) && NotFree(pmm.S, node)
    }

    /** `vmm_init` takes over the tables that the boot loader left. */
    constructor (a: Allocator, cr3: nat, m: Memory, ghost n: map<nat, Node>)
      requires a.Valid() && Sound(m, cr3, n) && NotFree(a.S, n)
      ensures Valid() && pmm == a && root == cr3 && mem == m && node == n
    {
      pmm, root, mem, node := a, cr3, m, n;
    }

    /** `alloc_table`: a zeroed page that was free, or zero where the kernel halts. */
    method AllocTable() returns (c: nat)
      requires Valid()
      modifies pmm, this`mem
      ensures pmm.Valid() && NotFree(pmm.S, node)
      ensures c == 0 ==> mem == old(mem) && forall i :: 0 <= i < MAX_ORDER ==> old(pmm.lists)[i] == []
      ensures c != 0 ==> c !in node && !Covers(pmm.S, c) && mem == old(mem)[c := Zeroed()]
      ensures if c == 0 then pmm.S == old(pmm.S) else Covers(old(pmm.S), c) && Shrunk(old(pmm.S), pmm.S)
    {
      hide Sound, Covers, Pmm.Sorted, Granted, NotFree, Shrunk;
      ghost var S := pmm.S;
      c := pmm.PallocOrder(0);
      if c != 0 {
        TakenPage(S, pmm.S, old(pmm.bitmap), pmm.bitmap, c, pmm.maxPage, node);
        mem := mem[c := Zeroed()];
      }
    }

    /** `walk_or_alloc`: the table that entry i of table f leads to, made if there is none. */
    method WalkOrAlloc(f: nat, i: nat, u: bv12) returns (child: nat, halted: bool)
      requires Valid() && f in node && i < 512 && node[f].level > 1 && (u == 0 || u == USER)
      requires !(node[f].level == 2 && Large(mem[f][i]))
      modifies this`mem, this`node, pmm
      ensures Valid() && Same(old(mem), mem, root) && Grown(old(node), old(pmm.S), node, pmm.S)
      ensures halted ==> mem == old(mem) && node == old(node)
      ensures !halted ==> child in node && node[child] == Node(old(node)[f].level - 1, 512 * old(node)[f].prefix + i)
      ensures Eased(old(mem), mem, root, u)
      ensures !halted ==> LedOn(old(mem), mem, old(node), f, i, u)
    {
      hide Sound, Covers, Pmm.Sorted, NotFree, Same, Grown, Put, WithUser, Eased, LedOn;
      var e := mem[f][i];
      if !Present(e) {
        child, halted := HangTable(f, i, u);
        return;
      }
      mem := Put(mem, f, i, WithUser(e, u));
      AddsUser(old(mem), mem, root, node, f, i, u);
      AddsRights(old(mem), mem, root, node, f, i, u);
      LeadsTo(old(mem), root, node, f, i);
      GrownAlready(node, pmm.S);
      return Pointer(e), false;
    }

    /** The branch of `walk_or_alloc` that makes the table. */
    method HangTable(f: nat, i: nat, u: bv12) returns (child: nat, halted: bool)
      requires Valid() && f in node && i < 512 && node[f].level > 1 && (u == 0 || u == USER) && !Present(mem[f][i])
      modifies this`mem, this`node, pmm
      ensures Valid() && Same(old(mem), mem, root) && Grown(old(node), old(pmm.S), node, pmm.S)
      ensures halted ==> mem == old(mem) && node == old(node)
      ensures !halted ==> child in node && node[child] == Node(old(node)[f].level - 1, 512 * old(node)[f].prefix + i)
      ensures Eased(old(mem), mem, root, u)
      ensures !halted ==> LedOn(old(mem), mem, old(node), f, i, u)
    {
      hide Sound, Covers, Pmm.Sorted, NotFree, Same, Grown, Put, TableEntry, Shrunk, Eased, LedOn;
      GrownAlready(node, pmm.S);
      var c := AllocTable();
      if c == 0 {
        AllSame(mem, root);
        EasedSame(mem, root, u);
        return 0, true;
      }
      ghost var node' := node[c := Node(node[f].level - 1, 512 * node[f].prefix + i)];
      mem := Put(mem, f, i, TableEntry(c, u));
      HangsEmpty(old(mem), mem, root, node, node', f, i, c, u);
      HangsRights(old(mem), mem, root, node, f, i, c, u);
      MoreTables(old(pmm.S), pmm.S, node, node', c);
      node := node';
      return c, false;
    }

    /** `map_page`: on return the page of v maps to frame p with the flags given and can be
        accessed as they say, and no other page has moved. When the kernel halts for want of a
        table nothing has. */
    method MapPage(v: nat, p: nat, flags: bv12, high: nat) returns (halted: bool)
      requires Valid()
      modifies this`mem, this`node, pmm
      ensures Valid() && Grown(old(node), old(pmm.S), node, pmm.S)
      ensures halted ==> Same(old(mem), mem, root) && Eased(old(mem), mem, root, flags & USER)
      ensures !halted ==> Mapped(old(mem), mem, root, v, Leaf(p, flags | PRESENT, high, false), flags & USER)
      ensures !halted ==> Permits(old(mem), mem, root, v, flags)
    {
      hide Sound, NotFree, Pmm.Sorted, Covers, Same, Grown, Mapped, Prefix, Index, Eased, LedOn, Open, Permits;
      var u := flags & USER;
      UserBit(flags);
      RootNode(mem, root, node, v);
      var pdpt, pd;
      pdpt, halted := WalkOrAlloc(root, Index(v, 4), u);
      if halted { return; }
      ghost var m1, node1, S1 := mem, node, pmm.S;
      Places(v, 3);
      pd, halted := WalkOrAlloc(pdpt, Index(v, 3), u);
      SameTrans(old(mem), m1, mem, root);
      EasedTrans(old(mem), m1, mem, root, u);
      GrownTrans(old(node), old(pmm.S), node1, S1, node, pmm.S);
      if halted { return; }
      Places(v, 2);
      ghost var m2, node2, S2 := mem, node, pmm.S;
      OpenTwo(old(mem), m1, m2, root, old(node), node1, node2, old(pmm.S), S1, S2, pdpt, v, u);
      var e := mem[pd][Index(v, 2)];
      if Large(e) {
        halted := SplitAndSet(pd, v, p, flags, high);
      } else {
        halted := WalkAndSet(pd, v, p, flags, high);
      }
      GrownTrans(old(node), old(pmm.S), node2, S2, node, pmm.S);
      if halted {
        SameTrans(old(mem), m2, mem, root);
        EasedTrans(old(mem), m2, mem, root, u);
      } else {
        MappedAfter(old(mem), m2, mem, root, v, Leaf(p, flags | PRESENT, high, false), u);
        PermitsAfter(old(mem), m2, mem, root, v, flags);
      }
    }

    /** Splitting: a table of pieces takes the place of the 2 MiB mapping. */
    method SplitTable(pd: nat, i: nat, u: bv12) returns (c: nat)
      requires Valid() && pd in node && i < 512 && node[pd].level == 2 && Large(mem[pd][i]) && (u == 0 || u == USER)
      modifies this`mem, this`node, pmm
      ensures Valid() && Grown(old(node), old(pmm.S), node, pmm.S)
      ensures c == 0 ==> mem == old(mem)
      ensures c != 0 ==>
        c in node && node[c] == Node(1, 512 * old(node)[pd].prefix + i)
        && SplitInto(old(mem), mem, root, 512 * old(node)[pd].prefix + i, u)
        && Hung(old(mem), mem, old(node), node, pd, i, c, Pieces(old(mem)[pd][i], u), u)
    {
      hide Tree, LargeAligned, Covers, Pmm.Sorted, Granted, NotFree, Same, Hung, Grown, SplitInto, Pieces, Shrunk;
      var e := mem[pd][i];
      GrownAlready(node, pmm.S);
      c := AllocTable();
      if c == 0 {
        return;
      }
      FillPieces(c, e, u);
      mem := Put(mem, pd, i, TableEntry(c, u));
      ghost var node' := node[c := Node(1, 512 * node[pd].prefix + i)];
      SplitsLarge(old(mem), mem, root, node, node', pd, i, c, u);
      HungPieces(old(mem), mem, node, node', pd, i, c, u);
      MoreTables(old(pmm.S), pmm.S, node, node', c);
      node := node';
    }

    /** The branch of `map_page` for an address inside a 2 MiB mapping. */
    method SplitAndSet(pd: nat, v: nat, p: nat, flags: bv12, high: nat) returns (halted: bool)
      requires Valid() && pd in node && node[pd] == Node(2, Prefix(v, 2)) && Large(mem[pd][Index(v, 2)])
      requires flags & USER == USER ==> Open(mem, root, 4, v, 2, USER)
      modifies this`mem, this`node, pmm
      ensures Valid() && Grown(old(node), old(pmm.S), node, pmm.S)
      ensures halted ==> Same(old(mem), mem, root) && Eased(old(mem), mem, root, flags & USER)
      ensures !halted ==> Mapped(old(mem), mem, root, v, Leaf(p, flags | PRESENT, high, false), flags & USER)
      ensures !halted ==> Permits(old(mem), mem, root, v, flags)
    {
      hide Tree, LargeAligned, Covers, Pmm.Sorted, NotFree, Same, Grown, Mapped, SplitInto, LeafSet, Prefix, Index,
        Eased, Open, Permits, Hung, Pieces;
      var u := flags & USER;
      UserBit(flags);
      var c := SplitTable(pd, Index(v, 2), u);
      if c == 0 {
        AllSame(mem, root);
        EasedSame(mem, root, u);
        return true;
      }
      ghost var m1 := mem;
      Places(v, 1);
      mem := Put(mem, c, Index(v, 1), Entry(flags | PRESENT, p, high));
      PresentBit(flags);
      SetLeaf(m1, mem, root, node, c, Index(v, 1), Entry(flags | PRESENT, p, high));
      Places(v, 0);
      SplitMapped(old(mem), m1, mem, root, old(node), pd, v, Leaf(p, flags | PRESENT, high, false), u);
      SplitPermits(old(mem), m1, mem, root, old(node), node, pd, c, v, p, flags, high);
      return false;
    }

    /** `unmap_page`: removes the mapping of one page exactly if it is not part of a 2 MiB
        mapping. If it is, the code takes the mapped memory itself for a table and clears
        one of its words. If that memory is a table, all tables below the word are lost. */
    method UnmapPage(v: nat)
      requires Valid()
      modifies this`mem, this`node
      ensures Valid() && (Unmapped(old(mem), mem, root, v) <==> !InLarge(old(mem), root, v))
      ensures if InLarge(old(mem), root, v) then Missed(old(mem), mem, root, old(node), node, v) else node == old(node)
      ensures !InLarge(old(mem), root, v) ==> SameRights(old(mem), mem, root, v)
    {
      hide Sound, NotFree, Pmm.Sorted, Covers, Prefix, Index, Unmapped, InLarge, LargeFor, LeafSet, Missed, SameRights;
      RootNode(mem, root, node, v);
      var e := mem[root][Index(v, 4)];
      if !Present(e) {
        Absent(mem, root, node, root, v);
        return;
      }
      LeadsTo(mem, root, node, root, Index(v, 4));
      var pdpt := Pointer(e);
      Places(v, 3);
      e := mem[pdpt][Index(v, 3)];
      if !Present(e) {
        Absent(mem, root, node, pdpt, v);
        return;
      }
      LeadsTo(mem, root, node, pdpt, Index(v, 3));
      var pd := Pointer(e);
      Places(v, 2);
      UnmapIn(pd, v);
    }

    /** The rest of `unmap_page`, from the page directory on. */
    method UnmapIn(pd: nat, v: nat)
      requires Valid() && pd in node && node[pd] == Node(2, Prefix(v, 2))
      modifies this`mem, this`node
      ensures Valid() && (Unmapped(old(mem), mem, root, v) <==> !InLarge(old(mem), root, v))
      ensures if InLarge(old(mem), root, v) then Missed(old(mem), mem, root, old(node), node, v) else node == old(node)
      ensures !InLarge(old(mem), root, v) ==> SameRights(old(mem), mem, root, v)
    {
      hide Sound, NotFree, Pmm.Sorted, Covers, Prefix, Index, InLarge, LargeFor, LeafSet, Unmapped, Missed, Kept,
        SameRights;
      var e := mem[pd][Index(v, 2)];
      if !Present(e) {
        Absent(mem, root, node, pd, v);
        return;
      }
      var pt := Pointer(e);
      mem := Put(mem, pt, Index(v, 1), EMPTY);
      if Large(e) {
        LargeEntryFor(old(mem), root, node, pd, v);
        Misses(old(mem), mem, root, node, v, e);
        KeptSound(old(mem), mem, root, node, pmm.S, pt, Index(v, 1));
        node := Kept(node, pt, Index(v, 1));
      } else {
        UnmapLeaf(old(mem), mem, root, node, pd, v);
      }
    }

    /** `virt_to_phys_user`: the byte address that v maps to, zero if it does not map. */
    method VirtToPhys(v: nat) returns (r: nat)
      requires Valid()
      ensures r == match Resolve(mem, root, 4, v) { case None => 0 case Some(leaf) => 4096 * leaf.frame + v % 4096 }
    {
      hide Sound, NotFree, Pmm.Sorted, Covers, Index;
      var e4 := mem[root][Index(v, 4)];
      if !Present(e4) { return 0; }
      var e3 := mem[e4.frame][Index(v, 3)];
      if !Present(e3) { return 0; }
      var e2 := mem[e3.frame][Index(v, 2)];
      if !Present(e2) { return 0; }
      if Large(e2) {
        LowBits(v);
        return 4096 * e2.frame + v % 0x20_0000;
      }
      var e1 := mem[e2.frame][Index(v, 1)];
      if !Present(e1) { return 0; }
      return 4096 * e1.frame + v % 4096;
    }

    /** The loop of `map_page` that writes the pieces. */
    method FillPieces(c: nat, e: Entry, u: bv12)
      modifies this`mem
      ensures mem == old(mem)[c := Pieces(e, u)]
    {
      ghost var m := mem;
      for k := 0 to 512
        invariant mem == m[c := mem[c]]
        invariant forall j: nat :: j < k ==> mem[c][j] == Pieces(e, u)[j]
      {
        mem := Put(mem, c, k, Entry((e.low & 0xF7F) | u, e.frame - e.frame % 512 + k, 0));
      }
      assert mem[c] == Pieces(e, u);
    }

    /** The branch of `map_page` for an address with a last-level table or none yet. */
    method WalkAndSet(pd: nat, v: nat, p: nat, flags: bv12, high: nat) returns (halted: bool)
      requires Valid() && pd in node && node[pd] == Node(2, Prefix(v, 2)) && !Large(mem[pd][Index(v, 2)])
      requires flags & USER == USER ==> Open(mem, root, 4, v, 2, USER)
      modifies this`mem, this`node, pmm
      ensures Valid() && Grown(old(node), old(pmm.S), node, pmm.S)
      ensures halted ==> Same(old(mem), mem, root) && Eased(old(mem), mem, root, flags & USER)
      ensures !halted ==> Mapped(old(mem), mem, root, v, Leaf(p, flags | PRESENT, high, false), flags & USER)
      ensures !halted ==> Permits(old(mem), mem, root, v, flags)
    {
      hide Tree, LargeAligned, Covers, Pmm.Sorted, Granted, NotFree, Same, Hung, Grown, Mapped, SplitInto, LeafSet,
        Prefix, Index,
        Eased, LedOn, Open, Permits;
      var u := flags & USER;
      UserBit(flags);
      var pt;
      NotInLarge(mem, root, node, pd, v);
      pt, halted := WalkOrAlloc(pd, Index(v, 2), u);
      if halted { return; }
      Places(v, 1);
      ghost var m1 := mem;
      mem := Put(mem, pt, Index(v, 1), Entry(flags | PRESENT, p, high));
      PresentBit(flags);
      SetLeaf(m1, mem, root, node, pt, Index(v, 1), Entry(flags | PRESENT, p, high));
      Places(v, 0);
      LeafMapped(old(mem), m1, mem, root, v, Leaf(p, flags | PRESENT, high, false), u);
      LeafPermits(old(mem), m1, mem, root, old(node), node, old(pmm.S), pmm.S, pd, pt, v, p, flags, high);
    }
  }

  lemma {:induction false} TakenPage(S: set<Blk>, S': set<Blk>, bm: seq<nat>, bm': seq<nat>, c: nat, maxPage: nat,
      node: map<nat, Node>)
    requires Granted(S, S', bm, bm', Blk(Shr(c, 0), 0), c, maxPage) && NotFree(S, node)
    ensures c !in node && !Covers(S', c) && NotFree(S', node) && Covers(S, c) && Shrunk(S, S')
  {
    var b := Blk(Shr(c, 0), 0);
    assert Shr(c, 0) == c;
    assert Covers(S, c) <==> CoversWith(S', b, c);
    HeldUncovered(S', b, c);
    forall f: nat {:trigger f in node} {:trigger Covers(S', f)} | f in node ensures !Covers(S', f) {
      assert Covers(S, f) <==> CoversWith(S', b, f);
    }
    forall f: nat {:trigger Covers(S', f)} | Covers(S', f) ensures Covers(S, f) {
      assert Covers(S, f) <==> CoversWith(S', b, f);
    }
  }

  /** Fewer free pages. */
  ghost predicate Shrunk(S: set<Blk>, S': set<Blk>) { forall f: nat {:trigger Covers(S', f)} :: Covers(S', f) ==>
      Covers(S, f) }

  /** Page of v maps to nothing and every other page is as it was. */
  ghost predicate Unmapped(m: Memory, m': Memory, root: nat, v: nat)
  {
    LeafSet(m, m', root, Page(v), None)
  }

  /** Page of v maps to the leaf given; every other page maps to the frame it mapped to,
      with the same attributes unless it is a piece of a split 2 MiB mapping. */
  ghost predicate Mapped(m: Memory, m': Memory, root: nat, v: nat, leaf: Leaf, u: bv12)
  {
    && (forall w: nat {:trigger Resolve(m', root, 4, w)} :: Page(w) == Page(v) ==>
         Resolve(m', root, 4, w) == Some(leaf))
    && (forall w: nat {:trigger Resolve(m', root, 4, w)} :: Page(w) != Page(v) ==>
          if InLarge(m, root, v) && Prefix(w, 1) == Prefix(v, 1)
            then Piece(Resolve(m, root, 4, w), Resolve(m', root, 4, w), u)
          else Resolve(m', root, 4, w) == Resolve(m, root, 4, w))
  }

  lemma {:induction false} GrownAlready(node: map<nat, Node>, S: set<Blk>)
    ensures Grown(node, S, node, S)
  {
  }

  lemma {:induction false} GrownTrans(a: map<nat, Node>, Sa: set<Blk>, b: map<nat, Node>, Sb: set<Blk>, c: map<nat,
      Node>, Sc: set<Blk>)
    requires Grown(a, Sa, b, Sb) && Grown(b, Sb, c, Sc)
    ensures Grown(a, Sa, c, Sc)
  {
    hide Owned;
  }

  lemma {:induction false} AllSame(m: Memory, root: nat)
    ensures Same(m, m, root)
  {
  }

  lemma {:induction false} MoreTables(S0: set<Blk>, S: set<Blk>, node: map<nat, Node>, node': map<nat, Node>, c: nat)
    requires NotFree(S, node) && !Covers(S, c) && c !in node && c in node' && node' == node[c := node'[c]]
    requires Covers(S0, c) && Shrunk(S0, S)
    ensures NotFree(S, node') && Grown(node, S0, node', S)
  {
  }

  lemma {:induction false} HangsEmpty(m: Memory, m': Memory, root: nat, node: map<nat, Node>, node': map<nat, Node>,
      f: nat, i: nat, c: nat, u: bv12)
    requires Sound(m, root, node) && f in node && i < 512 && node[f].level > 1 && !Present(m[f][i]) && c !in node
      && (u == 0 || u == USER)
    requires m' == Put(m[c := Zeroed()], f, i, TableEntry(c, u))
      && node' == node[c := Node(node[f].level - 1, 512 * node[f].prefix + i)]
    ensures Sound(m', root, node') && Same(m, m', root)
  {
    HangEmpty(m, m', root, node, node', f, i, c, u);
  }

  lemma {:induction false} AddsUser(m: Memory, m': Memory, root: nat, node: map<nat, Node>, f: nat, i: nat, u: bv12)
    requires Sound(m, root, node) && f in node && i < 512 && node[f].level > 1 && Inner(m[f][i], node[f].level)
      && (u == 0 || u == USER)
    requires m' == Put(m, f, i, WithUser(m[f][i], u))
    ensures Sound(m', root, node) && Same(m, m', root)
  {
    hide Tree, LargeAligned, Same, Inner;
    UserInner(m[f][i], u, node[f].level);
    Relabel(m, m', root, node, f, i, WithUser(m[f][i], u));
  }

  lemma {:induction false} LeadsTo(m: Memory, root: nat, node: map<nat, Node>, f: nat, i: nat)
    requires Sound(m, root, node) && f in node && i < 512 && node[f].level > 1 && Inner(m[f][i], node[f].level)
    ensures Pointer(m[f][i]) == m[f][i].frame && m[f][i].frame in node
      && node[m[f][i].frame] == Node(node[f].level - 1, 512 * node[f].prefix + i)
  {
    assert Child(m[f][i], node, node[f], i);
  }

  lemma {:induction false} RootNode(m: Memory, root: nat, node: map<nat, Node>, v: nat)
    requires Sound(m, root, node)
    ensures root in node && node[root] == Node(4, 0) && Prefix(v, 4) == 0 && 512 * 0 + Index(v, 4) == Prefix(v, 3)
  {
  }

  lemma {:induction false} Places(v: nat, l: nat)
    requires l < 4
    ensures Prefix(v, l) == 512 * Prefix(v, l + 1) + Index(v, l + 1)
  {
  }

  lemma {:induction false} UserBit(x: bv12)
    ensures x & USER == 0 || x & USER == USER
  {
  }

  lemma {:induction false} PresentBit(x: bv12)
    ensures (x | PRESENT) & 0x001 != 0
  {
  }

  lemma {:induction false} SplitsLarge(m: Memory, m': Memory, root: nat, node: map<nat, Node>, node': map<nat, Node>,
      f: nat, i: nat, c: nat, u: bv12)
    requires Sound(m, root, node) && f in node && i < 512 && node[f].level == 2 && Large(m[f][i]) && c !in node
      && (u == 0 || u == USER)
    requires m' == Put(m[c := Pieces(m[f][i], u)], f, i, TableEntry(c, u))
      && node' == node[c := Node(1, 512 * node[f].prefix + i)]
    ensures Sound(m', root, node') && SplitInto(m, m', root, 512 * node[f].prefix + i, u)
  {
    SplitLarge(m, m', root, node, node', f, i, c, u);
  }

  /** Pages inside a directory entry with `PTE_PS` are all present or all absent. */
  lemma {:induction false} LargePage(m: Memory, root: nat, node: map<nat, Node>, pd: nat, w: nat)
    requires Sound(m, root, node) && pd in node && node[pd] == Node(2, Prefix(w, 2)) && Large(m[pd][Index(w, 2)])
    ensures Present(m[pd][Index(w, 2)]) <==> InLarge(m, root, w)
    ensures InLarge(m, root, w) <==> Resolve(m, root, 4, w).Some?
  {
    Passes(m, root, node, pd, w);
    hide Sound;
  }

  lemma {:induction false} LargeOrNone(m: Memory, root: nat, node: map<nat, Node>, pd: nat, v: nat, w: nat)
    requires Sound(m, root, node) && pd in node && node[pd] == Node(2, Prefix(v, 2)) && Large(m[pd][Index(v, 2)])
    requires Prefix(w, 1) == Prefix(v, 1)
    ensures !InLarge(m, root, v) ==> Resolve(m, root, 4, w).None?
  {
    hide Sound, Resolve, Index, Prefix, Large, Present;
    Places(v, 1);
    Places(w, 1);
    LargePage(m, root, node, pd, v);
    LargePage(m, root, node, pd, w);
  }

  lemma {:induction false} SplitMapped(m: Memory, m1: Memory, m': Memory, root: nat, node: map<nat, Node>, pd: nat,
      v: nat, leaf: Leaf, u: bv12)
    requires Sound(m, root, node) && pd in node && node[pd] == Node(2, Prefix(v, 2)) && Large(m[pd][Index(v, 2)])
    requires SplitInto(m, m1, root, Prefix(v, 1), u) && LeafSet(m1, m', root, Page(v), Some(leaf))
    ensures Mapped(m, m', root, v, leaf, u)
  {
    hide Sound, Resolve;
    forall w: nat {:trigger Resolve(m', root, 4, w)} | Page(w) != Page(v)
      ensures if InLarge(m, root, v) && Prefix(w, 1) == Prefix(v, 1)
        then Piece(Resolve(m, root, 4, w), Resolve(m', root, 4, w), u)
              else Resolve(m', root, 4, w) == Resolve(m, root, 4, w)
    {
      assert Resolve(m', root, 4, w) == Resolve(m1, root, 4, w);
      if Prefix(w, 1) == Prefix(v, 1) {
        LargeOrNone(m, root, node, pd, v, w);
      }
    }
  }

  lemma {:induction false} LeafMapped(m: Memory, m1: Memory, m': Memory, root: nat, v: nat, leaf: Leaf, u: bv12)
    requires Same(m, m1, root) && LeafSet(m1, m', root, Page(v), Some(leaf)) && !InLarge(m, root, v)
    ensures Mapped(m, m', root, v, leaf, u)
  {
    hide Resolve;
    forall w: nat {:trigger Resolve(m', root, 4, w)} | Page(w) != Page(v)
      ensures Resolve(m', root, 4, w) == Resolve(m, root, 4, w) {
      assert Resolve(m1, root, 4, w) == Resolve(m, root, 4, w);
    }
  }

  lemma {:induction false} NotInLarge(m: Memory, root: nat, node: map<nat, Node>, pd: nat, v: nat)
    requires Sound(m, root, node) && pd in node && node[pd] == Node(2, Prefix(v, 2)) && !Large(m[pd][Index(v, 2)])
    ensures !InLarge(m, root, v)
  {
    Passes(m, root, node, pd, v);
  }

  lemma {:induction false} MappedAfter(m: Memory, m1: Memory, m': Memory, root: nat, v: nat, leaf: Leaf, u: bv12)
    requires Same(m, m1, root) && Mapped(m1, m', root, v, leaf, u)
    ensures Mapped(m, m', root, v, leaf, u)
  {
    hide Resolve;
    assert Resolve(m1, root, 4, v) == Resolve(m, root, 4, v);
    forall w: nat {:trigger Resolve(m', root, 4, w)} | Page(w) != Page(v)
      ensures if InLarge(m, root, v) && Prefix(w, 1) == Prefix(v, 1)
        then Piece(Resolve(m, root, 4, w), Resolve(m', root, 4, w), u)
              else Resolve(m', root, 4, w) == Resolve(m, root, 4, w)
    {
      assert Resolve(m1, root, 4, w) == Resolve(m, root, 4, w);
    }
  }

  /** The directory entry e of a 2 MiB mapping covers address v. */
  ghost predicate LargeFor(m: Memory, root: nat, v: nat, e: Entry)
  {
    Large(e) && Resolve(m, root, 4, v) == Some(Leaf(e.frame + Index(v, 1), e.low & 0xF7F, e.high, true))
  }

  lemma {:induction false} LargeEntryFor(m: Memory, root: nat, node: map<nat, Node>, pd: nat, v: nat)
    requires Sound(m, root, node) && pd in node && node[pd] == Node(2, Prefix(v, 2))
    requires Present(m[pd][Index(v, 2)]) && Large(m[pd][Index(v, 2)])
    ensures InLarge(m, root, v) && LargeFor(m, root, v, m[pd][Index(v, 2)])
  {
    Passes(m, root, node, pd, v);
  }

  lemma {:induction false} Absent(m: Memory, root: nat, node: map<nat, Node>, f: nat, v: nat)
    requires Sound(m, root, node) && f in node && 1 <= node[f].level <= 4 && node[f].prefix == Prefix(v, node[f].level)
    requires !Present(m[f][Index(v, node[f].level)])
    ensures !InLarge(m, root, v) && Unmapped(m, m, root, v) && SameRights(m, m, root, v)
  {
    hide Grants;
    forall w: nat {:trigger Resolve(m, root, 4, w)} | Page(w) == Page(v) ensures Resolve(m, root, 4, w).None? {
      SamePlace(v, w, node[f].level);
      Passes(m, root, node, f, w);
    }
    assert Resolve(m, root, 4, v).None?;
  }

  /** Addresses in the same page have the same indices. */
  lemma {:induction false} SamePlace(v: nat, w: nat, l: nat)
    requires Page(v) == Page(w) && 1 <= l <= 4
    ensures Prefix(v, l) == Prefix(w, l) && Index(v, l) == Index(w, l)
  {
    Places(v, l - 1);
    Places(w, l - 1);
    if l > 1 {
      SamePlace(v, w, l - 1);
    }
  }

  lemma {:induction false} LowBits(v: nat)
    ensures v % 0x20_0000 == 4096 * Index(v, 1) + v % 4096
  {
    TwelveBits(v);
    assert v / 4096 % 512 == Index(v, 1);
  }

  // ----- rights -----

  /** Entry i of table f leads on, with the user bit if it is asked for, and writable if the
      table is new. Nothing that led on has lost a bit. */
  ghost predicate LedOn(m: Memory, m': Memory, node: map<nat, Node>, f: nat, i: nat, u: bv12)
    requires f in node && i < 512
  {
    && More(m, m', node) && Inner(m'[f][i], node[f].level) && (u == USER ==> Has(m'[f][i], USER))
    && (!Present(m[f][i]) ==> Has(m'[f][i], WRITABLE))
  }

  /** What may be done with the page of w after mapping that of v. The page of v can be
      accessed as the flags say, as far as the tables that were there allow writing. No other
      page loses access, except that the other pages of a split 2 MiB mapping have user access
      exactly if v has. */
  ghost predicate PermitsAt(m: Memory, m': Memory, root: nat, v: nat, flags: bv12, w: nat)
  {
    if Page(w) == Page(v) then
      && (Grants(m', root, 4, w, USER) <==> flags & USER == USER)
      && (Grants(m', root, 4, w, WRITABLE) <==> flags & WRITABLE != 0 && Allows(m, root, 4, w, WRITABLE))
    else if InLarge(m, root, v) && Prefix(w, 1) == Prefix(v, 1) then
      && (Grants(m', root, 4, w, USER) <==> flags & USER == USER)
      && (Grants(m', root, 4, w, WRITABLE) <==> Grants(m, root, 4, w, WRITABLE))
    else
      && (Grants(m, root, 4, w, USER) ==> Grants(m', root, 4, w, USER))
      && (flags & USER == 0 ==> (Grants(m', root, 4, w, USER) <==> Grants(m, root, 4, w, USER)))
      && (Grants(m', root, 4, w, WRITABLE) <==> Grants(m, root, 4, w, WRITABLE))
  }

  ghost predicate Permits(m: Memory, m': Memory, root: nat, v: nat, flags: bv12)
  {
    forall w: nat {:trigger PermitsAt(m, m', root, v, flags, w)} :: PermitsAt(m, m', root, v, flags, w)
  }

  /** What may be done with the page of w is what might be. */
  ghost predicate RightsAt(m: Memory, m': Memory, root: nat, w: nat)
  {
    && (Grants(m', root, 4, w, USER) <==> Grants(m, root, 4, w, USER))
    && (Grants(m', root, 4, w, WRITABLE) <==> Grants(m, root, 4, w, WRITABLE))
  }

  /** So for all pages but that of v. */
  ghost predicate SameRights(m: Memory, m': Memory, root: nat, v: nat)
  {
    forall w: nat {:trigger RightsAt(m, m', root, w)} :: Page(w) != Page(v) ==> RightsAt(m, m', root, w)
  }

  lemma {:induction false} PutOnly(m: Memory, node: map<nat, Node>, f: nat, i: nat, e: Entry)
    requires i < 512
    ensures OnlyAt(m, Put(m, f, i, e), node, f, i) && Put(m, f, i, e)[f][i] == e
  {
  }

  lemma {:induction false} AddsRights(m: Memory, m': Memory, root: nat, node: map<nat, Node>, f: nat, i: nat, u: bv12)
    requires Sound(m, root, node) && f in node && i < 512 && node[f].level > 1 && Inner(m[f][i], node[f].level)
    requires (u == 0 || u == USER) && m' == Put(m, f, i, WithUser(m[f][i], u))
    ensures Eased(m, m', root, u) && LedOn(m, m', node, f, i, u)
  {
    PutOnly(m, node, f, i, WithUser(m[f][i], u));
    UserBits(m[f][i], u);
    hide LargeAligned, Grants, Allows, Put, WithUser, Has, OnlyAt;
    forall w: nat {:trigger RightsOk(m, m', root, u, w)} ensures RightsOk(m, m', root, u, w) {
      RelabelRights(m, m', node, f, i, u, root, w);
    }
    forall g, j {:trigger g in node, m'[g][j]} | g in node && 0 <= j < 512 && Inner(m[g][j], node[g].level)
      ensures Inner(m'[g][j], node[g].level) && m'[g][j].frame == m[g][j].frame && KeepsBits(m[g][j], m'[g][j])
    {
      EntryThere(m, m', node, f, i, u, g, j);
      UserBits(m[g][j], u);
      UserInner(m[g][j], u, node[g].level);
    }
  }

  lemma {:induction false} HangsRights(m: Memory, m': Memory, root: nat, node: map<nat, Node>, f: nat, i: nat, c: nat,
      u: bv12)
    requires Sound(m, root, node) && f in node && i < 512 && node[f].level > 1 && !Present(m[f][i]) && c !in node
    requires (u == 0 || u == USER) && m' == Put(m[c := Zeroed()], f, i, TableEntry(c, u))
    ensures Eased(m, m', root, u) && LedOn(m, m', node, f, i, u)
  {
    assert OnlyAt(m, m', node, f, i) && m'[c] == Zeroed() && m'[f][i] == TableEntry(c, u);
    TableWritable(c, u);
    hide LargeAligned, Grants, Allows, Put, TableEntry, Has;
    forall w: nat {:trigger RightsOk(m, m', root, u, w)} ensures RightsOk(m, m', root, u, w) {
      HangRights(m, m', node, f, i, c, u, root, w, WRITABLE);
      HangRights(m, m', node, f, i, c, u, root, w, USER);
    }
  }

  lemma {:induction false} HungPieces(m: Memory, m': Memory, node: map<nat, Node>, node': map<nat, Node>, f: nat,
      i: nat,
      c: nat, u: bv12)
    requires f in node && i < 512 && node[f].level == 2 && Large(m[f][i]) && c !in node && (u == 0 || u == USER)
    requires m' == Put(m[c := Pieces(m[f][i], u)], f, i, TableEntry(c, u))
    requires node' == node[c := Node(1, 512 * node[f].prefix + i)]
    ensures Hung(m, m', node, node', f, i, c, Pieces(m[f][i], u), u)
  {
  }

  /** After the two upper levels, the walk down to the page directory has the user bit. */
  lemma {:induction false} OpenTwo(m0: Memory, m1: Memory, m2: Memory, root: nat, node0: map<nat, Node>,
      node1: map<nat, Node>, node2: map<nat, Node>, S0: set<Blk>, S1: set<Blk>, S2: set<Blk>, pdpt: nat, v: nat,
        u: bv12)
    requires Sound(m0, root, node0) && Sound(m1, root, node1) && Sound(m2, root, node2)
    requires Grown(node0, S0, node1, S1) && Grown(node1, S1, node2, S2) && root in node0 && node0[root] == Node(4, 0)
    requires LedOn(m0, m1, node0, root, Index(v, 4), u) && pdpt in node1 && node1[pdpt] == Node(3, Prefix(v, 3))
    requires LedOn(m1, m2, node1, pdpt, Index(v, 3), u)
    ensures u == USER ==> Open(m2, root, 4, v, 2, USER)
  {
    hide LargeAligned, Has, Index, Owned;
    if u == USER {
      assert Prefix(v, 4) == 0;
      OpenNext(m1, root, node1, root, root, v, USER);
      hide Tree, More, Downward;
      OpenKept(m1, m2, node1, root, v, 3, USER) by { assert Tree(m1, root, node1); }
      OpenNext(m2, root, node2, pdpt, root, v, USER);
    }
  }

  lemma {:induction false} LeafBits(flags: bv12, p: nat, high: nat)
    ensures Has(Entry(flags | PRESENT, p, high), USER) <==> flags & USER == USER
    ensures Has(Entry(flags | PRESENT, p, high), WRITABLE) <==> flags & WRITABLE != 0
    ensures Present(Entry(flags | PRESENT, p, high))
    ensures flags & USER != USER ==> flags & USER == 0
  {
    assert (flags | 0x001) & 0x002 == flags & 0x002 && (flags | 0x001) & 0x004 == flags & 0x004;
  }

  lemma {:induction false} SplitPermits(m: Memory, m1: Memory, m': Memory, root: nat, node: map<nat, Node>,
      node1: map<nat, Node>, pd: nat, c: nat, v: nat, p: nat, flags: bv12, high: nat)
    requires Sound(m, root, node) && Sound(m1, root, node1) && Sound(m', root, node1)
    requires pd in node && node[pd] == Node(2, Prefix(v, 2)) && Large(m[pd][Index(v, 2)])
    requires Hung(m, m1, node, node1, pd, Index(v, 2), c, Pieces(m[pd][Index(v, 2)], flags & USER), flags & USER)
    requires c in node1 && node1[c] == Node(1, Prefix(v, 1))
    requires m' == Put(m1, c, Index(v, 1), Entry(flags | PRESENT, p, high))
    requires flags & USER == USER ==> Open(m, root, 4, v, 2, USER)
    ensures Permits(m, m', root, v, flags)
  {
    hide Tree, LargeAligned, Grants, Allows, Open, Prefix, Index, Has, Put, Hung, Pieces, Large, Present, InLarge;
    LeafBits(flags, p, high);
    UserBit(flags);
    LargePage(m, root, node, pd, v);
    Places(v, 0);
    Places(v, 1);
    forall w: nat {:trigger PermitsAt(m, m', root, v, flags, w)} ensures PermitsAt(m, m', root, v, flags, w) {
      PutOnly(m1, node1, c, Index(v, 1), Entry(flags | PRESENT, p, high));
      LeafRights(m1, m', root, node1, c, Index(v, 1), Entry(flags | PRESENT, p, high), w, USER);
      LeafRights(m1, m', root, node1, c, Index(v, 1), Entry(flags | PRESENT, p, high), w, WRITABLE);
      if Page(w) == Page(v) {
        SamePlace(v, w, 1);
      }
      if Prefix(w, 1) == Prefix(v, 1) {
        SplitRights(m, m1, root, node, node1, pd, Index(v, 2), c, flags & USER, w);
        SameTables(m, root, v, w, 1, USER);
        OpenUpper(m, root, v, w);
        AbsentRange(m, root, node, pd, v, w);
      } else {
        SplitElsewhere(m, m1, root, node, node1, pd, Index(v, 2), c, flags & USER, w);
      }
    }
  }

  lemma {:induction false} OpenUpper(m: Memory, root: nat, v: nat, w: nat)
    requires Prefix(w, 1) == Prefix(v, 1)
    ensures Open(m, root, 4, w, 2, USER) <==> Open(m, root, 4, v, 2, USER)
  {
    Places(v, 1);
    Places(w, 1);
    SameTables(m, root, v, w, 2, USER);
  }

  /** Below an entry that is not present nothing may be done. */
  lemma {:induction false} AbsentRange(m: Memory, root: nat, node: map<nat, Node>, pd: nat, v: nat, w: nat)
    requires Sound(m, root, node) && pd in node && node[pd] == Node(2, Prefix(v, 2)) && Prefix(w, 1) == Prefix(v, 1)
    ensures !Present(m[pd][Index(v, 2)]) ==> !Grants(m, root, 4, w, USER)
  {
    hide LargeAligned, Has, Large;
    Places(v, 1);
    Places(w, 1);
    assert Prefix(w, 4) == 0;
    RightsPass(m, root, node, pd, root, w, USER);
  }

  lemma {:induction false} SplitElsewhere(m: Memory, m1: Memory, root: nat, node: map<nat, Node>, node1: map<nat, Node>,
      pd: nat, i: nat, c: nat, u: bv12, w: nat)
    requires Sound(m, root, node) && pd in node && i < 512 && node[pd].level == 2
    requires Hung(m, m1, node, node1, pd, i, c, Pieces(m[pd][i], u), u) && Prefix(w, 1) != 512 * node[pd].prefix + i
    ensures Grants(m1, root, 4, w, USER) <==> Grants(m, root, 4, w, USER)
    ensures Grants(m1, root, 4, w, WRITABLE) <==> Grants(m, root, 4, w, WRITABLE)
  {
    HungOnly(m, m1, node, node1, pd, i, c, Pieces(m[pd][i], u), u);
    hide Hung, Pieces, LargeAligned, Has, Grants, Index, OnlyAt;
    SameDigits(node[pd].prefix, i, w);
    assert Prefix(w, 4) == 0;
    AvoidsRights(m, m1, node, pd, i, root, w, USER);
    AvoidsRights(m, m1, node, pd, i, root, w, WRITABLE);
  }

  lemma {:induction false} LeafPermits(m: Memory, m1: Memory, m': Memory, root: nat, node: map<nat, Node>,
      node1: map<nat, Node>, S: set<Blk>, S1: set<Blk>, pd: nat, pt: nat, v: nat, p: nat, flags: bv12, high: nat)
    requires Sound(m, root, node) && Sound(m1, root, node1) && Sound(m', root, node1) && Grown(node, S, node1, S1)
    requires pd in node && node[pd] == Node(2, Prefix(v, 2)) && !InLarge(m, root, v)
    requires Eased(m, m1, root, flags & USER) && LedOn(m, m1, node, pd, Index(v, 2), flags & USER)
    requires pt in node1 && node1[pt] == Node(1, Prefix(v, 1))
    requires m' == Put(m1, pt, Index(v, 1), Entry(flags | PRESENT, p, high))
    requires flags & USER == USER ==> Open(m, root, 4, v, 2, USER)
    ensures Permits(m, m', root, v, flags)
  {
    OpenThree(m, m1, root, node, node1, S, S1, pd, v, flags & USER);
    hide Tree, LargeAligned, Grants, Allows, Open, Prefix, Index, Has, Put, Present, InLarge, LedOn, Grown;
    LeafBits(flags, p, high);
    Places(v, 0);
    AllowsFull(m1, root, node1, pt, v, WRITABLE);
    PutOnly(m1, node1, pt, Index(v, 1), Entry(flags | PRESENT, p, high));
    assert RightsOk(m, m1, root, flags & USER, v);
    forall w: nat {:trigger PermitsAt(m, m', root, v, flags, w)} ensures PermitsAt(m, m', root, v, flags, w) {
      LeafRights(m1, m', root, node1, pt, Index(v, 1), Entry(flags | PRESENT, p, high), w, USER);
      LeafRights(m1, m', root, node1, pt, Index(v, 1), Entry(flags | PRESENT, p, high), w, WRITABLE);
      assert RightsOk(m, m1, root, flags & USER, w);
      LeafPermit(m, m1, m', root, v, Entry(flags | PRESENT, p, high), flags, w);
    }
  }

  lemma {:induction false} LeafPermit(m: Memory, m1: Memory, m': Memory, root: nat, v: nat, e: Entry, flags: bv12,
      w: nat)
    requires RightsOk(m, m1, root, flags & USER, w) && RightsOk(m, m1, root, flags & USER, v) && !InLarge(m, root, v)
    requires if Page(w) == Page(v)
      then (Grants(m', root, 4, w, USER) <==> Has(e, USER) && Open(m1, root, 4, w, 1, USER))
        && (Grants(m', root, 4, w, WRITABLE) <==> Has(e, WRITABLE) && Open(m1, root, 4, w, 1, WRITABLE))
      else RightsAt(m1, m', root, w)
    requires (Has(e, USER) <==> flags & USER == USER) && (Has(e, WRITABLE) <==> flags & WRITABLE != 0)
    requires flags & USER == USER ==> Open(m1, root, 4, v, 1, USER)
    requires Allows(m1, root, 4, v, WRITABLE) <==> Open(m1, root, 4, v, 1, WRITABLE)
    ensures PermitsAt(m, m', root, v, flags, w)
  {
    hide Grants, Allows, Open, Prefix, Index, Has, InLarge;
    if Page(w) == Page(v) {
      SamePlace(v, w, 1);
      SameTables(m1, root, v, w, 1, USER);
      SameTables(m1, root, v, w, 1, WRITABLE);
      SameTables(m, root, v, w, 1, WRITABLE);
    }
  }

  lemma {:induction false} OpenThree(m: Memory, m1: Memory, root: nat, node: map<nat, Node>, node1: map<nat, Node>,
      S: set<Blk>, S1: set<Blk>, pd: nat, v: nat, u: bv12)
    requires Sound(m, root, node) && Sound(m1, root, node1) && Grown(node, S, node1, S1)
    requires pd in node && node[pd] == Node(2, Prefix(v, 2)) && LedOn(m, m1, node, pd, Index(v, 2), u)
    requires u == USER ==> Open(m, root, 4, v, 2, USER)
    ensures u == USER ==> Open(m1, root, 4, v, 1, USER)
  {
    hide LargeAligned, Has, Index, Owned;
    if u == USER {
      assert Prefix(v, 4) == 0;
      OpenKept(m, m1, node, root, v, 2, USER);
      OpenNext(m1, root, node1, pd, root, v, USER);
    }
  }

  lemma {:induction false} AllowsFull(m: Memory, root: nat, node: map<nat, Node>, pt: nat, v: nat, bit: bv12)
    requires Sound(m, root, node) && pt in node && node[pt] == Node(1, Prefix(v, 1))
    ensures Allows(m, root, 4, v, bit) <==> Open(m, root, 4, v, 1, bit)
  {
    hide LargeAligned, Has;
    assert Prefix(v, 4) == 0;
    RightsPass(m, root, node, pt, root, v, bit);
  }

  lemma {:induction false} PermitsAfter(m: Memory, m1: Memory, m': Memory, root: nat, v: nat, flags: bv12)
    requires Same(m, m1, root) && Eased(m, m1, root, flags & USER) && Permits(m1, m', root, v, flags)
    ensures Permits(m, m', root, v, flags)
  {
    hide Grants, Allows, Resolve, Prefix;
    assert Resolve(m1, root, 4, v) == Resolve(m, root, 4, v);
    forall w: nat {:trigger PermitsAt(m, m', root, v, flags, w)} ensures PermitsAt(m, m', root, v, flags, w) {
      assert RightsOk(m, m1, root, flags & USER, w) && PermitsAt(m1, m', root, v, flags, w);
    }
  }

  lemma {:induction false} UnmapLeaf(m: Memory, m': Memory, root: nat, node: map<nat, Node>, pd: nat, v: nat)
    requires Sound(m, root, node) && pd in node && node[pd] == Node(2, Prefix(v, 2))
    requires Present(m[pd][Index(v, 2)]) && !Large(m[pd][Index(v, 2)])
      && m' == Put(m, Pointer(m[pd][Index(v, 2)]), Index(v, 1), EMPTY)
    ensures Sound(m', root, node) && Unmapped(m, m', root, v) && !InLarge(m, root, v) && SameRights(m, m', root, v)
  {
    hide Tree, LargeAligned, Prefix, Index, InLarge, LeafSet, Grants, Large, Has;
    LeadsTo(m, root, node, pd, Index(v, 2));
    NotInLarge(m, root, node, pd, v);
    Places(v, 1);
    var pt := Pointer(m[pd][Index(v, 2)]);
    SetLeaf(m, m', root, node, pt, Index(v, 1), EMPTY);
    Places(v, 0);
    PutOnly(m, node, pt, Index(v, 1), EMPTY);
    forall w: nat {:trigger RightsAt(m, m', root, w)} | Page(w) != Page(v) ensures RightsAt(m, m', root, w) {
      LeafRights(m, m', root, node, pt, Index(v, 1), EMPTY, w, USER);
      LeafRights(m, m', root, node, pt, Index(v, 1), EMPTY, w, WRITABLE);
    }
  }

  // ----- unmapping a page of a 2 MiB mapping -----

  /** The tables that are left when entry i of page f is cleared. */
  function Kept(node: map<nat, Node>, f: nat, i: nat): map<nat, Node>
  {
    if f in node && node[f].level >= 1 then Left(node, Slot(node[f], i)) else node
  }

  /** A word of the memory that a 2 MiB mapping maps, as far as `PT_INDEX` says, is
      cleared. */
  ghost predicate Missed(m: Memory, m': Memory, root: nat, node: map<nat, Node>, node': map<nat, Node>, v: nat)
  {
    exists e {:trigger LargeFor(m, root, v, e)} :: LargeFor(m, root, v, e)
      && m' == Put(m, Pointer(e), Index(v, 1), EMPTY) && node' == Kept(node, Pointer(e), Index(v, 1))
  }

  lemma {:induction false} KeptSound(m: Memory, m': Memory, root: nat, node: map<nat, Node>, S: set<Blk>, f: nat,
      i: nat)
    requires Sound(m, root, node) && NotFree(S, node) && i < 512 && m' == Put(m, f, i, EMPTY)
    ensures Sound(m', root, Kept(node, f, i)) && NotFree(S, Kept(node, f, i))
  {
    hide Covers;
    if f in node {
      LeftTree(m, m', root, node, f, i);
    } else {
      SoundElsewhere(m, m', root, node);
    }
  }

  /** All pages of a range are part of a 2 MiB mapping, or none is. */
  lemma {:induction false} LargeRange(m: Memory, f: int, l: nat, v: nat, w: nat)
    requires 2 <= l <= 4 && forall k :: 2 <= k <= l ==> Index(w, k) == Index(v, k)
    ensures (Resolve(m, f, l, v).Some? && Resolve(m, f, l, v).value.large) ==>
      (Resolve(m, f, l, w).Some? && Resolve(m, f, l, w).value.large)
    decreases l
  {
    hide Index;
    var e := m[f][Index(v, l)];
    if l > 2 && Present(e) {
      LargeRange(m, e.frame, l - 1, v, w);
    }
  }

  lemma {:induction false} LargeResolved(m: Memory, root: nat, v: nat, e: Entry)
    requires LargeFor(m, root, v, e)
    ensures InLarge(m, root, v) && InLarge(m, root, Flipped(v)) && Resolve(m, root, 4, Flipped(v)).Some?
      && Resolve(m, root, 4, v).Some?
  {
    hide Index, Flipped;
    Flips(v);
    LargeRange(m, root, 4, v, Flipped(v));
  }

  /** Inside a 2 MiB mapping `unmap_page` fails: if the word is on the walk of v, the page
      beside v loses its mapping too, and otherwise v keeps its own. */
  lemma {:induction false} Misses(m: Memory, m': Memory, root: nat, node: map<nat, Node>, v: nat, e: Entry)
    requires Sound(m, root, node) && LargeFor(m, root, v, e) && m' == Put(m, Pointer(e), Index(v, 1), EMPTY)
    ensures !Unmapped(m, m', root, v) && InLarge(m, root, v)
      && Missed(m, m', root, node, Kept(node, Pointer(e), Index(v, 1)), v)
  {
    hide Sound, Resolve, Prefix, Index, Flipped, Kept, InLarge, LargeFor;
    var f, w := Pointer(e), Flipped(v);
    LargeResolved(m, root, v, e);
    if f !in node {
      LargeStaysMapped(m, root, node, v, e);
      assert Resolve(m', root, 4, v) == Resolve(m, root, 4, v);
    } else {
      Levels(m, root, node, f);
      LargeClears(m, root, node, v, e);
      Flips(v);
      assert Resolve(m', root, 4, v).Some? || Resolve(m', root, 4, w).None?;
    }
  }

  lemma {:induction false} Levels(m: Memory, root: nat, node: map<nat, Node>, f: nat)
    requires Sound(m, root, node) && f in node
    ensures 1 <= node[f].level <= 4
  {
  }

  /** If the memory is a table of any level, exactly the pages below the word lose their
      mapping. So v does exactly if the word is an entry on its walk, which it never is in
      a last-level table. */
  lemma {:induction false} LargeClears(m: Memory, root: nat, node: map<nat, Node>, v: nat, e: Entry)
    requires Sound(m, root, node) && LargeFor(m, root, v, e) && Pointer(e) in node && 1 <= node[Pointer(e)].level <= 4
    ensures var m', f, i := Put(m, Pointer(e), Index(v, 1), EMPTY), Pointer(e), Index(v, 1);
      && Cleared(m, m', root, node, f, i)
      && (Resolve(m', root, 4, v).None? <==> Through(node, f, i, v))
      && (Through(node, f, i, v) ==> node[f].level >= 2)
  {
    hide LargeAligned, Tree, Prefix, Index;
    Clears(m, Put(m, Pointer(e), Index(v, 1), EMPTY), root, node, Pointer(e), Index(v, 1));
    if node[Pointer(e)].level == 1 {
      LargeNotLeaf(m, root, node, v, Pointer(e));
      LastDigits(node[Pointer(e)].prefix, Index(v, 1), v);
    }
  }

  /** Clearing a word of a page that is no table leaves every translation as it was: an
      `unmap_page` of a 2 MiB mapping does not unmap it. */
  lemma {:induction false} LargeStaysMapped(m: Memory, root: nat, node: map<nat, Node>, v: nat, e: Entry)
    requires Sound(m, root, node) && LargeFor(m, root, v, e) && Pointer(e) !in node
    ensures Same(m, Put(m, Pointer(e), Index(v, 1), EMPTY), root)
      && Sound(Put(m, Pointer(e), Index(v, 1), EMPTY), root, node)
  {
    var m' := Put(m, Pointer(e), Index(v, 1), EMPTY);
    SoundElsewhere(m, m', root, node);
    forall w: nat {:trigger Resolve(m', root, 4, w)} ensures Resolve(m', root, 4, w) == Resolve(m, root, 4, w) {
      Elsewhere(m, m', node, root, w);
    }
  }

  lemma {:induction false} Elsewhere(m: Memory, m': Memory, node: map<nat, Node>, g: nat, v: nat)
    requires Downward(m, node) && g in node && forall f: nat {:trigger f in node} :: f in node ==> m'[f] == m[f]
    ensures Resolve(m', g, node[g].level, v) == Resolve(m, g, node[g].level, v)
    decreases node[g].level
  {
    var l := node[g].level;
    var e := m[g][Index(v, l)];
    if Inner(e, l) && l > 1 {
      assert Child(e, node, node[g], Index(v, l));
      Elsewhere(m, m', node, e.frame, v);
    }
  }

  /** Only the tables matter. */
  lemma {:induction false} SoundElsewhere(m: Memory, m': Memory, root: nat, node: map<nat, Node>)
    requires Sound(m, root, node) && forall f: nat {:trigger f in node} :: f in node ==> m'[f] == m[f]
    ensures Sound(m', root, node)
  {
    forall f {:trigger f in node} | f in node && node[f].level < 4 ensures exists g :: Hangs(m', node, f, g) {
      var g :| Hangs(m, node, f, g);
      assert Hangs(m', node, f, g);
    }
  }

  /** A page of a 2 MiB mapping is in no last-level table. */
  lemma {:induction false} LargeNotLeaf(m: Memory, root: nat, node: map<nat, Node>, v: nat, f: nat)
    requires Sound(m, root, node) && InLarge(m, root, v) && f in node && node[f].level == 1
    ensures Page(v) != 512 * node[f].prefix + Index(v, 1)
  {
    LastDigits(node[f].prefix, Index(v, 1), v);
    if Through(node, f, Index(v, 1), v) {
      Passes(m, root, node, f, v);
    }
  }
}
