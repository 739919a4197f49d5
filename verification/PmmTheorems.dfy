/** `pmm_init` over a whole memory map, and what holds over whole runs of the page
    allocator. */
module PmmTheorems {
  import opened Shifts
  import opened Bits
  import opened BuddyTree
  import opened PmmState
  import opened Pmm

  // ----- initialization -----

  /** A memory map entry: addresses and lengths in bytes. */
  datatype Entry = Entry(base: nat, length: nat, usable: bool)

  /** `ALIGN_UP(base, PAGE_SIZE)` as a page number. */
  function FirstPage(e: Entry): nat { (e.base + 4095) / 4096 }

  /** `ALIGN_DOWN(base + length, PAGE_SIZE)` as a page number. */
  function EndPage(e: Entry): nat { (e.base + e.length) / 4096 }

  /** The size in bytes that `pmm_init` gives the bitmap. */
  function BitmapSize(pages: nat): nat { (pages / 8 + 4095) / 4096 * 4096 }

  /** The bitmap has a bit for every page except when the byte count is already a multiple
      of the page size and some pages are left over. */
  lemma {:induction false} BitmapCovers(pages: nat)
    ensures pages <= 8 * BitmapSize(pages) <==> !((pages / 8) % 4096 == 0 && pages % 8 != 0)
  {
    var b := pages / 8;
    assert pages == 8 * b + pages % 8;
    if b % 4096 == 0 {
      assert BitmapSize(pages) == b;
    } else {
      assert BitmapSize(pages) == b - b % 4096 + 4096;
    }
  }

  /** 32769 pages have 32768 bits. */
  lemma {:induction false} BitmapShort()
    ensures BitmapSize(32769) == 4096 && 32769 > 8 * BitmapSize(32769)
  {
    BitmapCovers(32769);
  }

  /** Usable ranges leave page zero alone and do not touch. */
  ghost predicate Separate(es: seq<Entry>)
  {
    && (forall i :: 0 <= i < |es| && es[i].usable ==> FirstPage(es[i]) > 0)
    && (forall i, j :: 0 <= i < j < |es| && es[i].usable && es[j].usable ==>
         EndPage(es[i]) < FirstPage(es[j]) || EndPage(es[j]) < FirstPage(es[i]))
  }

  /** Page x lies wholly in a usable entry among the first n. */
  ghost predicate Usable(es: seq<Entry>, n: nat, x: nat)
    requires n <= |es|
  {
    exists i {:trigger es[i]} :: 0 <= i < n && es[i].usable && FirstPage(es[i]) <= x < EndPage(es[i])
  }

  ghost predicate IsTop(es: seq<Entry>, top: nat)
  {
    && (forall i :: 0 <= i < |es| ==> EndPage(es[i]) <= top)
    && (top == 0 || exists i :: 0 <= i < |es| && EndPage(es[i]) == top)
  }

  /** The first pass: the highest page number that any entry reaches. */
  method TopPage(es: seq<Entry>) returns (top: nat)
    ensures IsTop(es, top)
  {
    var addr := 0;
    for i := 0 to |es|
      invariant forall j :: 0 <= j < i ==> es[j].base + es[j].length <= addr
      invariant addr == 0 || exists j :: 0 <= j < i && es[j].base + es[j].length == addr
    {
      if es[i].base + es[i].length > addr {
        addr := es[i].base + es[i].length;
      }
    }
    top := addr / 4096;
  }

  /** The second pass takes the bitmap from the front of the first usable entry that is
      large enough. */
  method PlaceBitmap(es: seq<Entry>, size: nat) returns (es': seq<Entry>, at: int)
    ensures at == -1 <==> forall i :: 0 <= i < |es| && es[i].usable ==> es[i].length < size
    ensures at == -1 ==> es' == es
    ensures at != -1 ==> 0 <= at < |es| && es[at].usable && size <= es[at].length && forall i ::
      0 <= i < at && es[i].usable ==> es[i].length < size
    ensures at != -1 ==> es' == es[at := Entry(es[at].base + size, es[at].length - size, true)]
  {
    for i := 0 to |es|
      invariant forall j :: 0 <= j < i && es[j].usable ==> es[j].length < size
    {
      if es[i].usable && size <= es[i].length {
        return es[i := Entry(es[i].base + size, es[i].length - size, true)], i;
      }
    }
    return es, -1;
  }

  lemma {:induction false} StaysSeparate(es: seq<Entry>, at: nat, size: nat)
    requires Separate(es) && at < |es| && es[at].usable && size <= es[at].length
    ensures Separate(es[at := Entry(es[at].base + size, es[at].length - size, true)])
    ensures EndPage(Entry(es[at].base + size, es[at].length - size, true)) == EndPage(es[at])
  {
    var e := Entry(es[at].base + size, es[at].length - size, true);
    assert FirstPage(es[at]) <= FirstPage(e) && EndPage(e) == EndPage(es[at]);
  }

  /** `pmm_init`, null standing for the halt when no entry can hold the bitmap: the free
      pages are exactly the whole pages of the usable entries less the bitmap's, and both
      counters agree with the sum of the ranges. */
  method Init(m: Links, es: seq<Entry>) returns (a: Allocator?, ghost left: seq<Entry>)
    requires Separate(es)
    requires forall top: nat :: IsTop(es, top) ==> (top / 8) % 4096 != 0 || top % 8 == 0
    ensures a == null ==> left == es
    ensures a != null ==> fresh(a) && a.Valid() && a.freePages == a.totalPages == RangeSum(left, |left|)
    ensures a != null ==> UsableFree(a.S, left, |left|) && Separate(left)
    ensures a != null ==> exists at, top: nat :: Carved(es, left, at, top)
  {
    var top := TopPage(es);
    var size := BitmapSize(top);
    BitmapCovers(top);
    assert forall i :: 0 <= i < |es| ==> EndPage(es[i]) <= top;
    var es', at := PlaceBitmap(es, size);
    left := es';
    assert at != -1 ==> Carved(es, left, at, top);
    if at == -1 {
      return null, left;
    }
    StaysSeparate(es, at, size);
    assert forall i :: 0 <= i < |left| ==> EndPage(left[i]) <= top;
    hide *;
    a := new Allocator(m, top, size);
    TileAll(a, es');
  }

  /** The third pass. */
  method TileAll(a: Allocator, es: seq<Entry>)
    requires a.Valid() && a.S == {} && a.freePages == a.totalPages == 0 && Separate(es)
    requires forall i :: 0 <= i < |es| ==> EndPage(es[i]) <= a.maxPage
    modifies a
    ensures a.Valid() && a.freePages == a.totalPages == RangeSum(es, |es|) && UsableFree(a.S, es, |es|)
  {
    hide Sorted, Mirrors, Bytes, Covers, Joined, Usable, Separate, Untouched, FirstPage, EndPage, UsableFree;
    NoneUsable(a.S, es);
    for i := 0 to |es|
      invariant a.Valid() && a.freePages == a.totalPages == RangeSum(es, i) && UsableFree(a.S, es, i)
    {
      ghost var S0 := a.S;
      if es[i].usable {
        NextRange(a.S, es, i);
        a.AddRegion(FirstPage(es[i]), EndPage(es[i]));
      }
      NextUsable(S0, a.S, es, i);
    }
  }

  /** The map less the room taken for the bitmap. */
  ghost predicate Carved(es: seq<Entry>, left: seq<Entry>, at: int, top: nat)
  {
    && IsTop(es, top) && 0 <= at < |es| && es[at].usable && BitmapSize(top) <= es[at].length
    && (forall i :: 0 <= i < at && es[i].usable ==> es[i].length < BitmapSize(top))
    && left == es[at := Entry(es[at].base + BitmapSize(top), es[at].length - BitmapSize(top), true)]
  }

  lemma {:induction false} NoneUsable(S: set<Blk>, es: seq<Entry>)
    requires S == {}
    ensures UsableFree(S, es, 0)
  {
  }

  /** The next range touches none of the ranges before it. */
  lemma {:induction false} NextRange(S: set<Blk>, es: seq<Entry>, n: nat)
    requires Separate(es) && n < |es| && es[n].usable && UsableFree(S, es, n)
    ensures FirstPage(es[n]) > 0 && Untouched(S, FirstPage(es[n]), EndPage(es[n]))
  {
    forall x: nat {:trigger Covers(S, x)} | FirstPage(es[n]) <= x + 1 && x <= EndPage(es[n]) ensures !Covers(S, x) {
      assert Covers(S, x) <==> Usable(es, n, x);
    }
  }

  lemma {:induction false} NextUsable(S0: set<Blk>, S: set<Blk>, es: seq<Entry>, n: nat)
    requires n < |es| && UsableFree(S0, es, n)
    requires if es[n].usable then Joined(S0, S, FirstPage(es[n]), EndPage(es[n])) else S == S0
    ensures UsableFree(S, es, n + 1)
  {
    forall x: nat {:trigger Covers(S, x)} ensures Covers(S, x) <==> Usable(es, n + 1, x) {
      assert Covers(S0, x) <==> Usable(es, n, x);
      if Usable(es, n, x) {
        var i :| 0 <= i < n && es[i].usable && FirstPage(es[i]) <= x < EndPage(es[i]);
        assert 0 <= i < n + 1;
      }
    }
  }

  ghost predicate UsableFree(S: set<Blk>, es: seq<Entry>, n: nat)
    requires n <= |es|
  {
    forall x: nat {:trigger Covers(S, x)} :: Covers(S, x) <==> Usable(es, n, x)
  }

  /** Pages of the usable entries among the first n. */
  function RangeSum(es: seq<Entry>, n: nat): nat
    requires n <= |es|
  {
    if n == 0 then 0
    else RangeSum(es, n - 1) + (if es[n - 1].usable && FirstPage(es[n - 1]) < EndPage(es[n - 1])
      then EndPage(es[n - 1]) - FirstPage(es[n - 1]) else 0)
  }

  // ----- the lists are a function of the free pages -----

  ghost predicate SamePages(S: set<Blk>, T: set<Blk>)
  {
    forall x: nat {:trigger Covers(S, x)} {:trigger Covers(T, x)} :: Covers(S, x) <==> Covers(T, x)
  }

  /** However they were reached, two states with the same free pages have the same blocks
      on the same lists. */
  lemma {:induction false} ListsDetermined(a: Allocator, b: Allocator, o: nat, p: nat)
    requires a.Valid() && b.Valid() && SamePages(a.S, b.S)
    ensures a.S == b.S && |a.lists| == MAX_ORDER == |b.lists|
    ensures o < MAX_ORDER ==> (p in a.lists[o] <==> p in b.lists[o])
  {
    Canonical(a.S, b.S);
  }

  /** Freeing two blocks gives the same lists in either order. */
  lemma {:induction false} FreesCommute(S: set<Blk>, c: Blk, d: Blk, Sc: set<Blk>, Scd: set<Blk>, Sd: set<Blk>,
      Sdc: set<Blk>)
    requires Gained(S, c, Sc) && Gained(Sc, d, Scd) && Gained(S, d, Sd) && Gained(Sd, c, Sdc)
    requires Tidy(Scd) && Tidy(Sdc)
    ensures Scd == Sdc
  {
    forall x: nat {:trigger Covers(Scd, x)} ensures Covers(Scd, x) <==> Covers(Sdc, x) {
      assert Covers(Scd, x) <==> CoversWith(Sc, d, x);
      assert Covers(Sc, x) <==> CoversWith(S, c, x);
      assert Covers(Sdc, x) <==> CoversWith(Sd, c, x);
      assert Covers(Sd, x) <==> CoversWith(S, d, x);
    }
    Canonical(Scd, Sdc);
  }

  /** `palloc_order` and then `pfree_order` of what it gave restores the lists (as sets)
      and the bitmap. The free page counter is restored only if nothing was split. */
  method AllocThenFree(a: Allocator, order: nat) returns (addr: nat)
    requires a.Valid()
    modifies a
    ensures a.Valid() && a.S == old(a.S) && a.bitmap == old(a.bitmap)
    ensures addr != 0 ==> order < MAX_ORDER && (a.freePages == old(a.freePages) <==> old(a.lists)[order] != [])
  {
    hide Sorted, Mirrors, Bytes, Covers, Released, Granted, Pow2, Shr, Shl, Live;
    addr := a.PallocOrder(order);
    if addr != 0 {
      ghost var c := Blk(Shr(addr, order), order);
      ghost var S1, bm1 := a.S, a.bitmap;
      GrantedLive(old(a.S), a.S, old(a.bitmap), a.bitmap, c, addr, a.maxPage);
      ghost var k := a.PfreeOrder(addr, order);
      Restored(old(a.S), S1, a.S, old(a.bitmap), bm1, a.bitmap, c, addr, a.maxPage, a.heads, a.link, a.lists,
        old(a.heads), old(a.link), old(a.lists));
      WholeBlock(a.heads, a.link, a.lists, a.S, a.maxPage, addr, order, k);
    }
  }

  lemma {:induction false} GrantedLive(S: set<Blk>, S': set<Blk>, bm: seq<nat>, bm': seq<nat>, c: Blk, addr: nat,
      maxPage: nat)
    requires Granted(S, S', bm, bm', c, addr, maxPage) && addr > 0
    ensures Live(S', c, addr, maxPage)
  {
  }

  lemma {:induction false} Restored(S0: set<Blk>, S1: set<Blk>, S2: set<Blk>, bm0: seq<nat>, bm1: seq<nat>,
      bm2: seq<nat>, c: Blk, addr: nat, maxPage: nat,
                                    heads: seq<int>, link: Links, lists: seq<seq<int>>, heads0: seq<int>,
                                      link0: Links, lists0: seq<seq<int>>)
    requires Granted(S0, S1, bm0, bm1, c, addr, maxPage) && Released(S1, S2, bm1, bm2, c)
    requires Sorted(heads, link, lists, S2, maxPage) && Sorted(heads0, link0, lists0, S0, maxPage)
    requires Bytes(bm0) && Bytes(bm2) && Mirrors(bm0, S0, maxPage)
    ensures S2 == S0 && bm2 == bm0
  {
    forall x: nat {:trigger Covers(S2, x)} ensures Covers(S2, x) <==> Covers(S0, x) {
      assert Covers(S0, x) <==> CoversWith(S1, c, x);
      assert Covers(S2, x) <==> CoversWith(S1, c, x);
    }
    Canonical(S2, S0);
    forall y: nat {:trigger PageBit(bm2, y)} | y < 8 * |bm0| ensures PageBit(bm0, y) <==> PageBit(bm2, y) {
      assert PageBit(bm1, y) <==> PageBit(bm0, y) || Shr(y, c.o) == c.q;
      if Shr(y, c.o) == c.q {
        BlockRange(c, y);
        assert CoversWith(S1, c, y);
        assert Covers(S0, y);
      }
    }
    SameBits(bm0, bm2);
  }

  lemma {:induction false} WholeBlock(heads: seq<int>, link: Links, lists: seq<seq<int>>, S: set<Blk>, maxPage: nat,
      addr: nat, order: nat, k: nat)
    requires Sorted(heads, link, lists, S, maxPage) && order <= k && Blk(Shr(addr, k), k) in S
    ensures Blk(Shr(addr, order), order) in S <==> k == order
    ensures Pow2(k) == Pow2(order) <==> k == order
  {
    WholeOrPart(heads, link, lists, S, maxPage, Blk(Shr(addr, k), k), Blk(Shr(addr, order), order), addr);
    Pow2Monotone(order, k);
  }

  // ----- whole runs -----

  datatype Command = CAlloc(order: nat) | CFree(addr: nat)

  function LiveBlock(live: map<nat, nat>, u: nat): Blk
    requires u in live
  {
    Blk(Shr(u, live[u]), live[u])
  }

  ghost predicate InLive(live: map<nat, nat>, x: nat)
  {
    exists u :: u in live && Shr(x, live[u]) == LiveBlock(live, u).q
  }

  /** Live blocks are apart from the free ones and from each other, and together with the
      free pages they make up the pages that were free at the start. */
  ghost predicate Agrees(S0: set<Blk>, S: set<Blk>, live: map<nat, nat>, maxPage: nat)
  {
    && (forall u {:trigger u in live} :: u in live ==> Live(S, LiveBlock(live, u), u, maxPage))
    && (forall u, v {:trigger u in live, v in live} :: u in live && v in live && u != v ==>
         Apart(LiveBlock(live, u), LiveBlock(live, v)))
    && (forall x: nat {:trigger Covers(S0, x)} {:trigger Covers(S, x)} {:trigger InLive(live, x)} ::
         Covers(S0, x) <==> Covers(S, x) || InLive(live, x))
  }

  /** No page in common. */
  ghost predicate Apart(b: Blk, c: Blk)
  {
    forall x: nat {:trigger Shr(x, b.o)} :: Shr(x, b.o) == b.q ==> Shr(x, c.o) != c.q
  }

  lemma {:induction false} PageCovered(S: set<Blk>, b: Blk, x: nat)
    requires Orders(S) && b in S && Shr(x, b.o) == b.q
    ensures Covers(S, x)
  {
    MemberCovered(S, b);
  }

  lemma {:induction false} HeldByPages(S: set<Blk>, c: Blk)
    requires Orders(S) && c.o < MAX_ORDER && forall x: nat {:trigger Covers(S, x)} :: Shr(x, c.o) == c.q ==>
      !Covers(S, x)
    ensures Held(S, c)
  {
    forall b | b in S ensures !Inside(b, c) && !Inside(c, b) {
      if Inside(b, c) {
        var x := SharedPage(b, c);
        PageCovered(S, b, x);
      } else if Inside(c, b) {
        var x := SharedPage(c, b);
        PageCovered(S, b, x);
      }
    }
  }

  lemma {:induction false} AgreesAlloc(S0: set<Blk>, S: set<Blk>, S': set<Blk>, bm: seq<nat>, bm': seq<nat>,
      live: map<nat, nat>, maxPage: nat, addr: nat, order: nat)
    requires Agrees(S0, S, live, maxPage) && Granted(S, S', bm, bm', Blk(Shr(addr, order), order), addr, maxPage)
      && addr > 0 && Orders(S')
    ensures addr !in live && Agrees(S0, S', live[addr := order], maxPage)
  {
    var c, live' := Blk(Shr(addr, order), order), live[addr := order];
    forall u | u in live ensures u != addr && Apart(LiveBlock(live, u), c) && Apart(c, LiveBlock(live, u))
      && Held(S', LiveBlock(live, u)) {
      LiveAndGranted(S, S', LiveBlock(live, u), c);
      assert Shr(addr, order) == c.q;
    }
    assert addr !in live;
    forall x: nat {:trigger Covers(S0, x)} ensures Covers(S0, x) <==> Covers(S', x) || InLive(live', x) {
      assert Covers(S, x) <==> CoversWith(S', c, x);
      LiveWith(live, addr, order, x);
    }
  }

  lemma {:induction false} LiveAndGranted(S: set<Blk>, S': set<Blk>, b: Blk, c: Blk)
    requires Held(S, b) && Gained(S', c, S) && Orders(S')
    ensures Apart(b, c) && Apart(c, b) && Held(S', b)
  {
    forall x: nat {:trigger Shr(x, b.o)} {:trigger Shr(x, c.o)} {:trigger Covers(S', x)} | Shr(x, b.o) == b.q
      ensures Shr(x, c.o) != c.q && !Covers(S', x) {
      HeldUncovered(S, b, x);
      assert Covers(S, x) <==> CoversWith(S', c, x);
    }
    HeldByPages(S', b);
  }

  lemma {:induction false} LiveWith(live: map<nat, nat>, addr: nat, order: nat, x: nat)
    requires addr !in live
    ensures InLive(live[addr := order], x) <==> InLive(live, x) || Shr(x, order) == Shr(addr, order)
  {
    var live' := live[addr := order];
    if InLive(live, x) {
      var u :| u in live && Shr(x, live[u]) == LiveBlock(live, u).q;
      assert u in live' && LiveBlock(live', u) == LiveBlock(live, u);
    }
    if Shr(x, order) == Shr(addr, order) {
      assert addr in live' && LiveBlock(live', addr) == Blk(Shr(addr, order), order);
    }
    if InLive(live', x) {
      var u :| u in live' && Shr(x, live'[u]) == LiveBlock(live', u).q;
      assert u != addr ==> u in live && LiveBlock(live', u) == LiveBlock(live, u);
    }
  }

  lemma {:induction false} AgreesFree(S0: set<Blk>, S: set<Blk>, S': set<Blk>, live: map<nat, nat>, maxPage: nat,
      addr: nat)
    requires Agrees(S0, S, live, maxPage) && addr in live && Gained(S, LiveBlock(live, addr), S') && Orders(S')
    ensures Agrees(S0, S', live - {addr}, maxPage)
  {
    var c, live' := LiveBlock(live, addr), live - {addr};
    assert live == live'[addr := live[addr]];
    forall u | u in live' ensures LiveBlock(live', u) == LiveBlock(live, u) && Held(S', LiveBlock(live', u)) {
      assert u in live && u != addr;
      OtherHeld(S, S', LiveBlock(live, u), c);
    }
    forall x: nat {:trigger Covers(S0, x)} ensures Covers(S0, x) <==> Covers(S', x) || InLive(live', x) {
      assert Covers(S', x) <==> CoversWith(S, c, x);
      LiveWith(live', addr, live[addr], x);
    }
  }

  lemma {:induction false} OtherHeld(S: set<Blk>, S': set<Blk>, b: Blk, c: Blk)
    requires Held(S, b) && Apart(b, c) && Gained(S, c, S') && Orders(S')
    ensures Held(S', b)
  {
    forall x: nat {:trigger Covers(S', x)} | Shr(x, b.o) == b.q ensures !Covers(S', x) {
      HeldUncovered(S, b, x);
      assert Covers(S', x) <==> CoversWith(S, c, x);
    }
    HeldByPages(S', b);
  }

  /** Two calls of `pfree_order`. */
  method FreeBoth(a: Allocator, p: nat, o: nat, q: nat, k: nat) returns (ghost mid: set<Blk>, ghost bm: seq<nat>)
    requires a.Valid() && Live(a.S, Blk(Shr(p, o), o), p, a.maxPage) && Live(a.S, Blk(Shr(q, k), k), q, a.maxPage)
    requires o < MAX_ORDER && k < MAX_ORDER && Apart(Blk(Shr(q, k), k), Blk(Shr(p, o), o))
    modifies a
    ensures a.Valid()
    ensures Released(old(a.S), mid, old(a.bitmap), bm, Blk(Shr(p, o), o))
      && Released(mid, a.S, bm, a.bitmap, Blk(Shr(q, k), k))
  {
    hide Sorted, Mirrors, Bytes, Covers, Released, Pow2, Shr, Shl, Apart, Held;
    ghost var S0, bm0 := a.S, a.bitmap;
    var _ := a.PfreeOrder(p, o);
    ReleasedGained(S0, a.S, bm0, a.bitmap, Blk(Shr(p, o), o));
    SortedOrders(a.heads, a.link, a.lists, a.S, a.maxPage);
    OtherHeld(S0, a.S, Blk(Shr(q, k), k), Blk(Shr(p, o), o));
    mid, bm := a.S, a.bitmap;
    var _ := a.PfreeOrder(q, k);
  }

  /** Two live blocks, freed in one order and in the other: the lists (as sets) and the
      bitmap come out the same. */
  method FreeEitherOrder(a: Allocator, b: Allocator, p: nat, o: nat, q: nat, k: nat)
    requires a != b && a.Valid() && b.Valid() && a.S == b.S && a.bitmap == b.bitmap && a.maxPage == b.maxPage
    requires Live(a.S, Blk(Shr(p, o), o), p, a.maxPage) && Live(a.S, Blk(Shr(q, k), k), q, a.maxPage)
    requires o < MAX_ORDER && k < MAX_ORDER && Apart(Blk(Shr(p, o), o), Blk(Shr(q, k), k))
    modifies a, b
    ensures a.Valid() && b.Valid() && a.S == b.S && a.bitmap == b.bitmap
  {
    hide Sorted, Mirrors, Covers, Released, Pow2, Shr, Shl, Apart, Live, Gained, Tidy, Bytes;
    ghost var S, bm, c, d := a.S, a.bitmap, Blk(Shr(p, o), o), Blk(Shr(q, k), k);
    ApartBoth(c, d);
    ghost var Sc, bc := FreeBoth(a, p, o, q, k);
    ghost var Sd, bd := FreeBoth(b, q, k, p, o);
    ReleasedGained(S, Sc, bm, bc, c);
    ReleasedGained(Sc, a.S, bc, a.bitmap, d);
    ReleasedGained(S, Sd, bm, bd, d);
    ReleasedGained(Sd, b.S, bd, b.bitmap, c);
    SortedTidy(a.heads, a.link, a.lists, a.S, a.maxPage);
    SortedTidy(b.heads, b.link, b.lists, b.S, b.maxPage);
    FreesCommute(S, c, d, Sc, a.S, Sd, b.S);
    SameBitsReleased(S, Sc, a.S, Sd, b.S, bm, bc, a.bitmap, bd, b.bitmap, c, d);
  }

  lemma {:induction false} ApartBoth(b: Blk, c: Blk)
    requires Apart(b, c)
    ensures Apart(c, b)
  {
  }

  lemma {:induction false} SortedTidy(heads: seq<int>, link: Links, lists: seq<seq<int>>, S: set<Blk>, maxPage: nat)
    requires Sorted(heads, link, lists, S, maxPage)
    ensures Tidy(S)
  {
  }

  lemma {:induction false} SameBitsReleased(S: set<Blk>, Sc: set<Blk>, Scd: set<Blk>, Sd: set<Blk>, Sdc: set<Blk>,
                                            bm: seq<nat>, bc: seq<nat>, bcd: seq<nat>, bd: seq<nat>, bdc: seq<nat>,
                                              c: Blk, d: Blk)
    requires Released(S, Sc, bm, bc, c) && Released(Sc, Scd, bc, bcd, d) && Released(S, Sd, bm, bd, d)
      && Released(Sd, Sdc, bd, bdc, c)
    requires Bytes(bcd) && Bytes(bdc)
    ensures bcd == bdc
  {
    hide Gained, PageBit, Bytes, Shr;
    forall y: nat {:trigger PageBit(bdc, y)} | y < 8 * |bcd| ensures PageBit(bcd, y) <==> PageBit(bdc, y) {
      assert PageBit(bc, y) <==> PageBit(bm, y) && Shr(y, c.o) != c.q;
      assert PageBit(bd, y) <==> PageBit(bm, y) && Shr(y, d.o) != d.q;
    }
    SameBits(bcd, bdc);
  }

  /** Any run of allocations and frees from any valid state: live blocks stay apart from
      each other and from the free ones, no page is lost, and once everything is freed,
      in whatever order, the lists (as sets) and the bitmap are those of the start. */
  method Session(a: Allocator, cmds: seq<Command>) returns (live: map<nat, nat>)
    requires a.Valid()
    modifies a
    ensures a.Valid() && Agrees(old(a.S), a.S, live, a.maxPage)
    ensures live == map[] ==> a.S == old(a.S) && a.bitmap == old(a.bitmap)
  {
    hide Sorted, Mirrors, Bytes, Covers, Agrees, BeyondKept;
    live := map[];
    NoneLive(a.S, a.maxPage);
    ghost var S0, bm0 := a.S, a.bitmap;
    BeyondSame(a.bitmap, a.maxPage);
    for i := 0 to |cmds|
      invariant a.Valid() && Agrees(S0, a.S, live, a.maxPage) && BeyondKept(bm0, a.bitmap, a.maxPage)
    {
      live := Execute(a, cmds[i], live, S0, bm0);
    }
    if live == map[] {
      AllFreed(S0, a.S, a.maxPage, bm0, a.bitmap, old(a.heads), old(a.link), old(a.lists), a.heads, a.link, a.lists);
    }
  }

  /** Bits past the last page are never changed. */
  ghost predicate BeyondKept(bm0: seq<nat>, bm: seq<nat>, maxPage: nat)
  {
    |bm| == |bm0| && forall y: nat {:trigger PageBit(bm, y)} :: maxPage <= y < 8 * |bm| ==>
      (PageBit(bm, y) <==> PageBit(bm0, y))
  }

  lemma {:induction false} BeyondSame(bm: seq<nat>, maxPage: nat)
    ensures BeyondKept(bm, bm, maxPage)
  {
  }

  lemma {:induction false} NoneLive(S: set<Blk>, maxPage: nat)
    ensures Agrees(S, S, map[], maxPage)
  {
  }

  method Execute(a: Allocator, cmd: Command, live: map<nat, nat>, ghost S0: set<Blk>, ghost bm0: seq<nat>)
      returns (live': map<nat, nat>)
    requires a.Valid() && Agrees(S0, a.S, live, a.maxPage) && BeyondKept(bm0, a.bitmap, a.maxPage)
    modifies a
    ensures a.Valid() && Agrees(S0, a.S, live', a.maxPage) && BeyondKept(bm0, a.bitmap, a.maxPage)
  {
    hide Sorted, Mirrors, Bytes, Covers, Agrees, Granted, Released, Live, Pow2, Shr, Shl, BeyondKept;
    live' := live;
    ghost var S, bm := a.S, a.bitmap;
    match cmd
    case CAlloc(order) =>
      var addr := a.PallocOrder(order);
      if addr != 0 {
        SortedOrders(a.heads, a.link, a.lists, a.S, a.maxPage);
        AgreesAlloc(S0, S, a.S, bm, a.bitmap, live, a.maxPage, addr, order);
        BeyondGranted(bm0, bm, a.bitmap, S, a.S, Blk(Shr(addr, order), order), addr, a.maxPage);
        live' := live[addr := order];
      }
    case CFree(addr) =>
      if addr in live {
        LiveAt(S0, S, live, a.maxPage, addr);
        ghost var k := a.PfreeOrder(addr, live[addr]);
        SortedOrders(a.heads, a.link, a.lists, a.S, a.maxPage);
        ReleasedGained(S, a.S, bm, a.bitmap, LiveBlock(live, addr));
        AgreesFree(S0, S, a.S, live, a.maxPage, addr);
        BeyondReleased(bm0, bm, a.bitmap, S, a.S, LiveBlock(live, addr), addr, a.maxPage);
        live' := live - {addr};
      }
  }

  lemma {:induction false} SortedOrders(heads: seq<int>, link: Links, lists: seq<seq<int>>, S: set<Blk>, maxPage: nat)
    requires Sorted(heads, link, lists, S, maxPage)
    ensures Orders(S)
  {
  }

  lemma {:induction false} LiveAt(S0: set<Blk>, S: set<Blk>, live: map<nat, nat>, maxPage: nat, addr: nat)
    requires Agrees(S0, S, live, maxPage) && addr in live
    ensures live[addr] < MAX_ORDER && Live(S, LiveBlock(live, addr), addr, maxPage)
  {
  }

  lemma {:induction false} ReleasedGained(S: set<Blk>, S': set<Blk>, bm: seq<nat>, bm': seq<nat>, c: Blk)
    requires Released(S, S', bm, bm', c)
    ensures Gained(S, c, S')
  {
  }

  lemma {:induction false} BeyondGranted(bm0: seq<nat>, bm: seq<nat>, bm': seq<nat>, S: set<Blk>, S': set<Blk>,
      c: Blk, addr: nat, maxPage: nat)
    requires BeyondKept(bm0, bm, maxPage) && Granted(S, S', bm, bm', c, addr, maxPage)
    ensures BeyondKept(bm0, bm', maxPage)
  {
    forall y: nat {:trigger PageBit(bm', y)} | maxPage <= y < 8 * |bm'| ensures PageBit(bm', y) <==> PageBit(bm0, y) {
      BlockRange(c, y);
      assert PageBit(bm, y) <==> PageBit(bm0, y);
    }
  }

  lemma {:induction false} BeyondReleased(bm0: seq<nat>, bm: seq<nat>, bm': seq<nat>, S: set<Blk>, S': set<Blk>,
      c: Blk, addr: nat, maxPage: nat)
    requires BeyondKept(bm0, bm, maxPage) && Released(S, S', bm, bm', c) && Live(S, c, addr, maxPage)
    ensures BeyondKept(bm0, bm', maxPage)
  {
    forall y: nat {:trigger PageBit(bm', y)} | maxPage <= y < 8 * |bm'| ensures PageBit(bm', y) <==> PageBit(bm0, y) {
      BlockRange(c, y);
      assert PageBit(bm, y) <==> PageBit(bm0, y);
    }
  }

  lemma {:induction false} AllFreed(S0: set<Blk>, S: set<Blk>, maxPage: nat, bm0: seq<nat>, bm: seq<nat>,
                                    heads0: seq<int>, link0: Links, lists0: seq<seq<int>>, heads: seq<int>,
                                      link: Links, lists: seq<seq<int>>)
    requires Sorted(heads0, link0, lists0, S0, maxPage) && Sorted(heads, link, lists, S, maxPage)
      && Agrees(S0, S, map[], maxPage)
    requires Mirrors(bm0, S0, maxPage) && Mirrors(bm, S, maxPage) && Bytes(bm0) && Bytes(bm)
      && BeyondKept(bm0, bm, maxPage)
    ensures S == S0 && bm == bm0
  {
    forall x: nat {:trigger Covers(S, x)} ensures Covers(S, x) <==> Covers(S0, x) {
      assert !InLive(map[], x);
    }
    Canonical(S, S0);
    forall y: nat {:trigger PageBit(bm, y)} | y < 8 * |bm0| ensures PageBit(bm0, y) <==> PageBit(bm, y) {
      if y < maxPage {
        assert PageBit(bm0, y) <==> !Covers(S0, y);
      }
    }
    SameBits(bm0, bm);
  }
}
