/** The buddy allocator of physical pages. */
module Pmm {
  import opened Shifts
  import opened Bits
  import opened BuddyTree
  import opened PmmState

  /** The lists hold a tidy set of blocks and are in memory. */
  ghost predicate Sorted(heads: seq<int>, link: Links, lists: seq<seq<int>>, S: set<Blk>, maxPage: nat)
  {
    Tidy(S) && Listed(lists, S) && Linked(heads, link, lists) && InRange(S, maxPage)
  }

  /** Pages of block c, in the set or not. */
  ghost predicate Gained(S: set<Blk>, c: Blk, S': set<Blk>)
  {
    forall x: nat {:trigger Covers(S, x)} {:trigger Covers(S', x)} :: Covers(S', x) <==> CoversWith(S, c, x)
  }

  lemma {:induction false} PushLinked(heads: seq<int>, link: Links, lists: seq<seq<int>>, o: nat, p: nat)
    requires Linked(heads, link, lists) && o < MAX_ORDER && forall t: nat :: t < MAX_ORDER ==> p !in lists[t]
    ensures Linked(heads[o := p], link[p := heads[o]], lists[o := [p] + lists[o]])
  {
    var heads', link', lists' := heads[o := p], link[p := heads[o]], lists[o := [p] + lists[o]];
    forall t: nat {:trigger heads'[t]} {:trigger lists'[t]} | t < MAX_ORDER
      ensures ListAt(link', heads'[t], lists'[t]) {
      assert ListAt(link, heads[t], lists[t]);
      if t == o {
        ListPush(link, heads[o], lists[o], p);
      } else {
        ListFrame(link, link', heads[t], lists[t]);
      }
    }
  }

  lemma {:induction false} PopLinked(heads: seq<int>, link: Links, lists: seq<seq<int>>, o: nat)
    requires Linked(heads, link, lists) && o < MAX_ORDER && heads[o] != NIL
    ensures lists[o] != [] && lists[o][0] == heads[o] >= 0 && heads[o] in lists[o]
    ensures Linked(heads[o := link[heads[o]]], link, lists[o := lists[o][1..]])
    ensures Cut(lists[o], 0) == lists[o][1..] && forall a, b :: 0 <= a < b < |lists[o]| ==> lists[o][a] != lists[o][b]
  {
    assert ListAt(link, heads[o], lists[o]);
    ListPop(link, heads[o], lists[o]);
  }

  lemma {:induction false} UnlinkLinked(heads: seq<int>, link: Links, lists: seq<seq<int>>, o: nat, i: nat)
    requires Linked(heads, link, lists) && o < MAX_ORDER && 0 < i < |lists[o]|
    requires forall t: nat, p :: t < MAX_ORDER && t != o && p in lists[t] ==> p !in lists[o]
    ensures Linked(heads, link[lists[o][i - 1] := link[lists[o][i]]], lists[o := Cut(lists[o], i)])
  {
    var link', lists' := link[lists[o][i - 1] := link[lists[o][i]]], lists[o := Cut(lists[o], i)];
    forall t: nat {:trigger heads[t]} {:trigger lists'[t]} | t < MAX_ORDER ensures ListAt(link', heads[t], lists'[t]) {
      assert ListAt(link, heads[t], lists[t]);
      if t == o {
        ListUnlink(link, heads[o], lists[o], i);
      } else {
        assert lists[o][i - 1] in lists[o];
        ListFrame(link, link', heads[t], lists[t]);
      }
    }
  }

  /** Different lists share no page. */
  lemma {:induction false} ListsApart(lists: seq<seq<int>>, S: set<Blk>, t: nat, o: nat, p: int)
    requires Listed(lists, S) && Disjoint(S) && t < MAX_ORDER && o < MAX_ORDER && t != o && p in lists[t] && p >= 0
    ensures p !in lists[o]
  {
    if p in lists[o] {
      var lo, hi := if t < o then t else o, if t < o then o else t;
      ShrShr(p, lo, hi - lo);
      assert Inside(Blk(Shr(p, lo), lo), Blk(Shr(p, hi), hi));
    }
  }

  /** `pmm_list_add` of a held block. */
  lemma {:induction false} PushSorted(heads: seq<int>, link: Links, lists: seq<seq<int>>, S: set<Blk>, maxPage: nat,
      c: Blk, p: nat)
    requires Sorted(heads, link, lists, S, maxPage) && Held(S, c) && p == Shl(c.q, c.o) && p + Pow2(c.o) <= maxPage
    requires Tidy(S + {c})
    ensures Sorted(heads[c.o := p], link[p := heads[c.o]], lists[c.o := [p] + lists[c.o]], S + {c}, maxPage)
  {
    forall t: nat | t < MAX_ORDER ensures p !in lists[t] { HeldFresh(lists, S, c, t); }
    PushLinked(heads, link, lists, c.o, p);
    PushListed(lists, S, c);
  }

  /** Taking the head of a list. */
  lemma {:induction false} PopSorted(heads: seq<int>, link: Links, lists: seq<seq<int>>, S: set<Blk>, maxPage: nat,
      o: nat, c: Blk)
    requires Sorted(heads, link, lists, S, maxPage) && o < MAX_ORDER && heads[o] != NIL && heads[o] >= 0
      && c == Blk(Shr(heads[o], o), o)
    ensures c in S && heads[o] == Shl(c.q, c.o) && heads[o] + Pow2(c.o) <= maxPage && Held(S - {c}, c) && lists[o] != []
    ensures Sorted(heads[o := link[heads[o]]], link, lists[o := lists[o][1..]], S - {c}, maxPage)
    ensures Gained(S - {c}, c, S)
  {
    PopLinked(heads, link, lists, o);
    assert c in S;
    CutListed(lists, S, c, 0);
    TakeBlock(S, c);
  }

  lemma {:induction false} HeadList(heads: seq<int>, link: Links, lists: seq<seq<int>>, S: set<Blk>, maxPage: nat,
      i: nat)
    requires Sorted(heads, link, lists, S, maxPage) && i < MAX_ORDER
    ensures |heads| == MAX_ORDER == |lists| && ListAt(link, heads[i], lists[i])
  {
  }

  /** The walk of `pmm_list_remove`: the element before page p on its list, or none. */
  method FindBefore(link: Links, head: int, p: nat, ghost s: seq<int>, ghost t: nat) returns (prev: int, ghost i: nat)
    requires ListAt(link, head, s) && t < |s| && s[t] == p
    ensures i < |s| && s[i] == p && prev == if i == 0 then NIL else s[i - 1]
  {
    assert head == s[0];
    var curr := head;
    prev, i := NIL, 0;
    while curr != p
      invariant i <= t && curr == s[i] && prev == if i == 0 then NIL else s[i - 1]
      decreases t - i
    {
      ListNext(link, head, s, i);
      prev := curr;
      curr := link[curr];
      i := i + 1;
    }
  }

  /** Page addr is the first on list i, and the lists from order on before it are empty. */
  ghost predicate FirstOf(lists: seq<seq<int>>, order: nat, i: int, addr: int)
  {
    && order <= i < |lists| && lists[i] != [] && lists[i][0] == addr
    && forall t :: order <= t < i ==> lists[t] == []
  }

  class Allocator {
    const maxPage: nat
    var heads: seq<int>
    var link: Links
    var bitmap: seq<nat>
    var freePages: int
    var totalPages: int
    ghost var lists: seq<seq<int>>
    ghost var S: set<Blk>

    ghost predicate Core()
      reads this
    {
      Sorted(heads, link, lists, S, maxPage)
    }

    ghost predicate Valid()
      reads this
    {
      Core() && Mirrors(bitmap, S, maxPage) && Bytes(bitmap) && !Covers(S, 0)
    }

    /** Empty lists over a bitmap of the given bytes, all set. */
    constructor (m: Links, pages: nat, bytes: nat)
      requires pages <= 8 * bytes
      ensures Valid() && S == {} && maxPage == pages && freePages == 0 == totalPages && |bitmap| == bytes
      ensures link == m
    {
      maxPage := pages;
      link := m;
      heads := seq(MAX_ORDER, i => NIL);
      lists := seq(MAX_ORDER, i => []);
      S := {};
      bitmap := seq(bytes, i => 255);
      freePages, totalPages := 0, 0;
      new;
      FullBitmap(bitmap);
      EmptyCover();
    }

    /** `bitmap_set` over a range of pages. */
    method SetRange(p: nat, n: nat)
      requires p + n <= 8 * |bitmap|
      modifies this`bitmap
      ensures |bitmap| == |old(bitmap)| && (Bytes(old(bitmap)) ==> Bytes(bitmap))
      ensures forall y: nat {:trigger PageBit(bitmap, y)} :: y < 8 * |bitmap| ==>
        (PageBit(bitmap, y) <==> PageBit(old(bitmap), y) || p <= y < p + n)
    {
      hide PageBit, SetPage, Bytes;
      for j := 0 to n
        invariant |bitmap| == |old(bitmap)| && (Bytes(old(bitmap)) ==> Bytes(bitmap))
        invariant forall y: nat {:trigger PageBit(bitmap, y)} :: y < 8 * |bitmap| ==>
          (PageBit(bitmap, y) <==> PageBit(old(bitmap), y) || p <= y < p + j)
      {
        ghost var before := bitmap;
        bitmap := SetPage(bitmap, p + j);
        SetPageLength(before, p + j);
        if Bytes(before) {
          SetPageBytes(before, p + j);
        }
        forall y: nat {:trigger PageBit(bitmap, y)} | y < 8 * |bitmap|
          ensures PageBit(bitmap, y) <==> PageBit(old(bitmap), y) || p <= y < p + j + 1
        {
          SetPageSpec(before, p + j, y);
        }
      }
    }

    /** `bitmap_clear` over a range of pages. */
    method ClearRange(p: nat, n: nat)
      requires p + n <= 8 * |bitmap|
      modifies this`bitmap
      ensures |bitmap| == |old(bitmap)| && (Bytes(old(bitmap)) ==> Bytes(bitmap))
      ensures forall y: nat {:trigger PageBit(bitmap, y)} :: y < 8 * |bitmap| ==>
        (PageBit(bitmap, y) <==> PageBit(old(bitmap), y) && !(p <= y < p + n))
    {
      hide PageBit, ClearPage, Bytes;
      for j := 0 to n
        invariant |bitmap| == |old(bitmap)| && (Bytes(old(bitmap)) ==> Bytes(bitmap))
        invariant forall y: nat {:trigger PageBit(bitmap, y)} :: y < 8 * |bitmap| ==>
          (PageBit(bitmap, y) <==> PageBit(old(bitmap), y) && !(p <= y < p + j))
      {
        ghost var before := bitmap;
        bitmap := ClearPage(bitmap, p + j);
        SetPageLength(before, p + j);
        if Bytes(before) {
          SetPageBytes(before, p + j);
        }
        forall y: nat {:trigger PageBit(bitmap, y)} | y < 8 * |bitmap|
          ensures PageBit(bitmap, y) <==> PageBit(old(bitmap), y) && !(p <= y < p + j + 1)
        {
          ClearPageSpec(before, p + j, y);
        }
      }
    }

    /** `pmm_list_add` */
    method ListAdd(order: nat, p: nat)
      requires order < |heads|
      modifies this`heads, this`link
      ensures heads == old(heads)[order := p] && link == old(link)[p := old(heads)[order]]
    {
      link := link[p := heads[order]];
      heads := heads[order := p];
    }

    /** The splitting loop of `palloc_order`: halve a held block down to the order asked
        for, keeping the lower half each time. */
    method SplitDown(addr: nat, from: nat, order: nat, ghost c0: Blk) returns (ghost c: Blk)
      requires Core() && order <= from == c0.o < MAX_ORDER && Held(S, c0) && addr == Shl(c0.q, c0.o)
        && addr + Pow2(from) <= maxPage
      modifies this`heads, this`link, this`lists, this`S
      ensures Core() && Held(S, c) && c.o == order && addr == Shl(c.q, c.o) && addr + Pow2(order) <= maxPage
      ensures forall x: nat {:trigger CoversWith(S, c, x)} {:trigger CoversWith(old(S), c0, x)} ::
        CoversWith(S, c, x) <==> CoversWith(old(S), c0, x)
    {
      hide Sorted, Held, CoversWith, Shl, Pow2;
      c := c0;
      var i := from;
      while i > order
        invariant Core() && order <= i == c.o < MAX_ORDER && Held(S, c) && addr == Shl(c.q, c.o)
          && addr + Pow2(i) <= maxPage
        invariant forall x: nat {:trigger CoversWith(S, c, x)} {:trigger CoversWith(old(S), c0, x)} ::
          CoversWith(S, c, x) <==> CoversWith(old(S), c0, x)
      {
        i := i - 1;
        HalfAddress(addr, c, i);
        ghost var l, r := Blk(2 * c.q, i), Blk(2 * c.q + 1, i);
        SplitSorted(heads, link, lists, S, maxPage, c, l, r, addr);
        ListAdd(i, addr + Pow2(i));
        lists := lists[i := [addr + Pow2(i)] + lists[i]];
        S := S + {r};
        c := l;
      }
    }

    /** `palloc_order`: zero means that every list from the order asked for is empty. */
    method PallocOrder(order: nat) returns (addr: nat)
      requires Valid()
      modifies this
      ensures Valid()
      ensures addr == 0 <==> forall i :: order <= i < MAX_ORDER ==> old(lists)[i] == []
      ensures addr == 0 ==>
        S == old(S) && lists == old(lists) && heads == old(heads) && link == old(link)
        && bitmap == old(bitmap) && freePages == old(freePages)
      ensures addr != 0 ==> Granted(old(S), S, old(bitmap), bitmap, Blk(Shr(addr, order), order), addr, maxPage)
      ensures addr != 0 ==> order < MAX_ORDER && freePages == old(freePages) - Pow2(order)
      ensures addr != 0 ==> (old(lists)[order] != [] <==> Blk(Shr(addr, order), order) in old(S))
      ensures addr != 0 ==> exists i :: order <= i < MAX_ORDER && FirstOf(old(lists), order, i, addr)
    {
      hide Sorted, Held, Covers, CoversWith, Shl, Shr, Pow2, Mirrors, Granted, Gained, PageBit, Bytes;
      ListsLength(heads, link, lists, S, maxPage);
      var i := order;
      while i < MAX_ORDER
        invariant order <= i && |heads| == MAX_ORDER == |lists|
        invariant forall t :: order <= t < i && t < MAX_ORDER ==> lists[t] == []
        invariant S == old(S) && lists == old(lists) && heads == old(heads) && link == old(link)
          && bitmap == old(bitmap) && freePages == old(freePages)
        invariant Valid()
      {
        ListHead(heads, link, lists, S, maxPage, i);
        if heads[i] == NIL {
          i := i + 1;
          continue;
        }
        addr := heads[i];
        ghost var c0 := Blk(Shr(addr, i), i);
        PopSorted(heads, link, lists, S, maxPage, i, c0);
        heads := heads[i := link[addr]];
        lists := lists[i := lists[i][1..]];
        S := S - {c0};
        ghost var S1 := S;
        ghost var c := SplitDown(addr, i, order, c0);
        GrantedBits(old(S), S1, S, c0, c, old(bitmap), maxPage, addr);
        SetRange(addr, Pow2(order));
        GrantedNow(old(S), S, old(bitmap), bitmap, c, addr, maxPage);
        WholeOrPart(old(heads), old(link), old(lists), old(S), maxPage, c0, c, addr);
        freePages := freePages - Pow2(order);
        assert FirstOf(old(lists), order, i, addr);
        return;
      }
      addr := 0;
    }

    /** The tiling loop of `pmm_init` over one usable range of pages. Taking the largest
        aligned block each time covers the range exactly and leaves no pair of buddies. */
    method AddRegion(base: nat, end: nat)
      requires Valid() && 0 < base && end <= maxPage && Untouched(S, base, end)
      modifies this
      ensures Valid() && Joined(old(S), S, base, end)
      ensures base <= end ==> freePages == old(freePages) + (end - base) && totalPages == old(totalPages) + (end - base)
      ensures end <= base ==> S == old(S) && freePages == old(freePages) && totalPages == old(totalPages)
      ensures |bitmap| == |old(bitmap)|
    {
      hide Sorted, Mirrors, Bytes, Covers, Joined, Greedy, Untouched, Aligned, Pow2, Shl, Shr, PageBit;
      var cur := base;
      JoinedNone(S, base, end);
      while cur < end
        invariant Valid() && base <= cur && (cur <= end || end <= base == cur) && |bitmap| == |old(bitmap)|
        invariant Joined(old(S), S, base, cur) && Greedy(S, base, cur, end) && Untouched(old(S), base, end)
        invariant freePages == old(freePages) + (cur - base) && totalPages == old(totalPages) + (cur - base)
        invariant end <= base ==> S == old(S)
      {
        var order := GreedyOrder(cur, end);
        ghost var c := Blk(Shr(cur, order), order);
        ghost var S0, bm := S, bitmap;
        ListsLength(heads, link, lists, S, maxPage);
        TileSorted(heads, link, lists, old(S), S, maxPage, base, cur, end, c, bitmap);
        ClearRange(cur, Pow2(order));
        TileBits(S, c, cur, maxPage, bm, bitmap);
        ListAdd(order, cur);
        lists := lists[order := [cur] + lists[order]];
        S := S + {c};
        totalPages := totalPages + Pow2(order);
        freePages := freePages + Pow2(order);
        cur := cur + Pow2(order);
      }
    }

    /** `pmm_list_contains` */
    method ListContains(order: nat, p: nat) returns (found: bool)
      requires Core() && order < MAX_ORDER
      ensures |lists| == MAX_ORDER && (found <==> p in lists[order])
    {
      ListHead(heads, link, lists, S, maxPage, order);
      ghost var s := lists[order];
      assert ListAt(link, heads[order], s);
      hide Sorted;
      var curr := heads[order];
      ghost var i := 0;
      while curr != NIL
        invariant 0 <= i <= |s| && curr == (if i < |s| then s[i] else NIL) && p !in s[..i]
        decreases |s| - i
      {
        if curr == p {
          return true;
        }
        curr := link[curr];
        i := i + 1;
      }
      return false;
    }

    /** `pmm_list_remove` of a listed block. */
    method ListRemove(order: nat, p: nat, ghost c: Blk)
      requires Core() && order == c.o < MAX_ORDER && c in S && p == Shl(c.q, c.o)
      modifies this`heads, this`link, this`lists, this`S
      ensures Core() && S == old(S) - {c}
    {
      hide Sorted, Shl;
      ListHead(heads, link, lists, S, maxPage, order);
      InItsList(heads, link, lists, S, maxPage, c);
      ghost var i;
      var prev;
      HeadList(heads, link, lists, S, maxPage, order);
      ghost var t: nat :| t < |lists[order]| && lists[order][t] == p;
      prev, i := FindBefore(link, heads[order], p, lists[order], t);
      RemoveSorted(heads, link, lists, S, maxPage, c, i);
      if prev == NIL {
        heads := heads[order := link[p]];
      } else {
        link := link[prev := link[p]];
      }
      lists := lists[order := Cut(lists[order], i)];
      S := S - {c};
    }

    /** `pfree_order` of a live block: merge with the buddy as long as it is free. */
    method PfreeOrder(p: nat, order: nat) returns (ghost merged: nat)
      requires Valid() && order < MAX_ORDER && Live(S, Blk(Shr(p, order), order), p, maxPage)
      modifies this
      ensures Valid() && order <= merged < MAX_ORDER
      ensures Released(old(S), S, old(bitmap), bitmap, Blk(Shr(p, order), order))
      ensures freePages == old(freePages) + Pow2(merged) && Blk(Shr(p, merged), merged) in S
    {
      hide Sorted, Held, Covers, CoversWith, Shl, Shr, Pow2, Mirrors, Gained, PageBit, Bytes, FlipBit, Released, Live,
        MirrorsWith, SameUnion;
      ghost var c0 := Blk(Shr(p, order), order);
      ghost var c := c0;
      ListsLength(heads, link, lists, S, maxPage);
      LiveFacts(S, c, p, maxPage, bitmap);
      ClearRange(p, Pow2(order));
      ReleasedBits(S, c, p, maxPage, old(bitmap), bitmap);
      ghost var cleared := bitmap;
      var page: nat, k: nat := p, order;
      var done := false;
      while k < MAX_ORDER - 1 && !done
        invariant Core() && order <= k == c.o < MAX_ORDER && Live(S, c, page, maxPage)
        invariant c == Blk(Shr(p, k), k)
        invariant SameUnion(old(S), c0, S, c) && MirrorsWith(bitmap, S, c, maxPage) && !CoversWith(S, c, 0)
        invariant done ==> Buddy(c) !in S
        invariant bitmap == cleared && freePages == old(freePages)
        decreases MAX_ORDER - k, !done
      {
        var buddy := FlipBit(page, k);
        BuddyFacts(heads, link, lists, S, maxPage, c, page, buddy, bitmap);
        if buddy >= maxPage || PageBit(bitmap, buddy) {
          done := true;
        } else {
          var contained := ListContains(k, buddy);
          if !contained {
            done := true;
          } else {
            ghost var S1 := S;
            MergeFacts(old(S), c0, heads, link, lists, S, c, page, buddy, maxPage, bitmap, p);
            ListRemove(k, buddy, Buddy(c));
            if buddy < page {
              page := buddy;
            }
            k := k + 1;
            c := Parent(c);
          }
        }
      }
      PutSorted(old(S), c0, heads, link, lists, S, maxPage, c, page, old(bitmap), bitmap);
      ListsLength(heads, link, lists, S, maxPage);
      ListAdd(k, page);
      lists := lists[k := [page] + lists[k]];
      S := S + {c};
      freePages := freePages + Pow2(k);
      merged := k;
    }
  }

  /** Block c is held, starts at page p and lies between page one and the last page. */
  ghost predicate Live(S: set<Blk>, c: Blk, p: nat, maxPage: nat)
  {
    Held(S, c) && p == Shl(c.q, c.o) && p + Pow2(c.o) <= maxPage && p > 0
  }

  /** The pages of c joined the free set, and nothing else changed: their bits are clear,
      all other bits are as before. */
  ghost predicate Released(S: set<Blk>, S': set<Blk>, bm: seq<nat>, bm': seq<nat>, c: Blk)
  {
    && Gained(S, c, S') && |bm'| == |bm|
    && forall y: nat {:trigger PageBit(bm', y)} :: y < 8 * |bm| ==>
         (PageBit(bm', y) <==> PageBit(bm, y) && Shr(y, c.o) != c.q)
  }

  ghost predicate SameUnion(S0: set<Blk>, c0: Blk, S: set<Blk>, c: Blk)
  {
    forall x: nat {:trigger CoversWith(S, c, x)} {:trigger CoversWith(S0, c0, x)} :: CoversWith(S, c, x) <==>
      CoversWith(S0, c0, x)
  }

  ghost predicate MirrorsWith(bm: seq<nat>, S: set<Blk>, c: Blk, maxPage: nat)
  {
    maxPage <= 8 * |bm| && forall x: nat {:trigger PageBit(bm, x)} {:trigger CoversWith(S, c, x)} :: x < maxPage ==>
      (PageBit(bm, x) <==> !CoversWith(S, c, x))
  }

  /** Block c, starting at page addr, left the free set, and nothing else did: its bits
      are set, all other bits are as before. */
  ghost predicate Granted(S: set<Blk>, S': set<Blk>, bm: seq<nat>, bm': seq<nat>, c: Blk, addr: nat, maxPage: nat)
  {
    && addr == Shl(c.q, c.o) && addr + Pow2(c.o) <= maxPage && c.o < MAX_ORDER
    && Held(S', c) && Gained(S', c, S)
    && |bm'| == |bm|
    && forall y: nat {:trigger PageBit(bm', y)} :: y < 8 * |bm| ==>
         (PageBit(bm', y) <==> PageBit(bm, y) || Shr(y, c.o) == c.q)
  }

  /** The block handed out was on a list as it is only if it was not split. */
  lemma {:induction false} WholeOrPart(heads: seq<int>, link: Links, lists: seq<seq<int>>, S: set<Blk>, maxPage: nat,
      c0: Blk, c: Blk, addr: nat)
    requires Sorted(heads, link, lists, S, maxPage) && c0 in S && c.o <= c0.o
    requires c0 == Blk(Shr(addr, c0.o), c0.o) && c == Blk(Shr(addr, c.o), c.o)
    ensures c in S <==> c.o == c0.o
  {
    ShrShr(addr, c.o, c0.o - c.o);
    assert Inside(c, c0);
  }

  lemma {:induction false} ListsLength(heads: seq<int>, link: Links, lists: seq<seq<int>>, S: set<Blk>, maxPage: nat)
    requires Sorted(heads, link, lists, S, maxPage)
    ensures |heads| == MAX_ORDER == |lists|
  {
  }

  lemma {:induction false} ListHead(heads: seq<int>, link: Links, lists: seq<seq<int>>, S: set<Blk>, maxPage: nat,
      i: nat)
    requires Sorted(heads, link, lists, S, maxPage) && i < MAX_ORDER
    ensures |heads| == MAX_ORDER == |lists|
    ensures heads[i] == NIL <==> lists[i] == []
    ensures heads[i] != NIL ==> heads[i] >= 0 && heads[i] == lists[i][0]
  {
    assert ListAt(link, heads[i], lists[i]);
    if lists[i] != [] {
      assert lists[i][0] >= 0;
    }
  }

  /** A held block has no covered page. */
  lemma {:induction false} HeldUncovered(S: set<Blk>, c: Blk, x: nat)
    requires Held(S, c) && Shr(x, c.o) == c.q
    ensures !Covers(S, x)
  {
    if Covers(S, x) {
      var o: nat :| o < MAX_ORDER && Blk(Shr(x, o), o) in S;
      if c.o <= o {
        ShrShr(x, c.o, o - c.o);
      } else {
        ShrShr(x, o, c.o - o);
      }
    }
  }

  lemma {:induction false} GrantedBits(S0: set<Blk>, S1: set<Blk>, S: set<Blk>, c0: Blk, c: Blk, bm: seq<nat>,
      maxPage: nat, addr: nat)
    requires Gained(S1, c0, S0) && Held(S, c)
    requires forall x: nat {:trigger CoversWith(S, c, x)} {:trigger CoversWith(S1, c0, x)} :: CoversWith(S, c, x) <==>
      CoversWith(S1, c0, x)
    requires addr == Shl(c.q, c.o) && addr + Pow2(c.o) <= maxPage && Mirrors(bm, S0, maxPage) && !Covers(S0, 0)
    ensures Gained(S, c, S0) && addr + Pow2(c.o) <= 8 * |bm| && addr != 0
  {
    forall x: nat {:trigger Covers(S, x)} {:trigger Covers(S0, x)} ensures Covers(S0, x) <==> CoversWith(S, c, x) {
      assert CoversWith(S, c, x) <==> CoversWith(S1, c0, x);
      assert Covers(S0, x) <==> CoversWith(S1, c0, x);
    }
    BlockRange(c, addr);
    assert Pow2(c.o) >= 1;
    assert CoversWith(S, c, addr);
  }

  lemma {:induction false} GrantedNow(S0: set<Blk>, S: set<Blk>, bm: seq<nat>, bm': seq<nat>, c: Blk, addr: nat,
      maxPage: nat)
    requires Gained(S, c, S0) && Held(S, c) && addr == Shl(c.q, c.o) && addr + Pow2(c.o) <= maxPage
      && Mirrors(bm, S0, maxPage)
    requires |bm'| == |bm| && !Covers(S0, 0)
    requires forall y: nat {:trigger PageBit(bm', y)} :: y < 8 * |bm'| ==>
      (PageBit(bm', y) <==> PageBit(bm, y) || addr <= y < addr + Pow2(c.o))
    ensures Granted(S0, S, bm, bm', c, addr, maxPage) && c == Blk(Shr(addr, c.o), c.o)
    ensures Mirrors(bm', S, maxPage) && !Covers(S, 0)
  {
    ShrOfShl(c.q, c.o);
    forall y: nat {:trigger PageBit(bm', y)} | y < 8 * |bm| ensures PageBit(bm', y) <==>
      PageBit(bm, y) || Shr(y, c.o) == c.q {
      BlockRange(c, y);
    }
    forall x: nat {:trigger PageBit(bm', x)} {:trigger Covers(S, x)} | x < maxPage ensures PageBit(bm', x) <==>
      !Covers(S, x) {
      assert PageBit(bm, x) <==> !Covers(S0, x);
      assert Covers(S0, x) <==> CoversWith(S, c, x);
      if Shr(x, c.o) == c.q {
        HeldUncovered(S, c, x);
      }
      BlockRange(c, x);
    }
    assert Covers(S0, 0) <==> CoversWith(S, c, 0);
  }

  lemma {:induction false} SetPageLength(bm: seq<nat>, x: nat)
    requires x < 8 * |bm|
    ensures |SetPage(bm, x)| == |bm| == |ClearPage(bm, x)|
  {
  }

  lemma {:induction false} HalfAddress(addr: nat, c: Blk, i: nat)
    requires c.o == i + 1 && addr == Shl(c.q, c.o)
    ensures addr == Shl(2 * c.q, i) && addr + Pow2(i) == Shl(2 * c.q + 1, i) && Pow2(c.o) == 2 * Pow2(i)
  {
    ShlDouble(c.q, i);
    ShlPlus(2 * c.q, 1, i);
  }

  lemma {:induction false} SplitSorted(heads: seq<int>, link: Links, lists: seq<seq<int>>, S: set<Blk>, maxPage: nat,
      c: Blk, l: Blk, r: Blk, addr: nat)
    requires Sorted(heads, link, lists, S, maxPage) && Held(S, c) && c.o > 0 && addr == Shl(c.q, c.o)
      && addr + Pow2(c.o) <= maxPage
    requires l == Blk(2 * c.q, c.o - 1) && r == Blk(2 * c.q + 1, c.o - 1)
    ensures |heads| == MAX_ORDER == |lists| && c.o < MAX_ORDER
    ensures var p := addr + Pow2(r.o);
      Sorted(heads[r.o := p], link[p := heads[r.o]], lists[r.o := [p] + lists[r.o]], S + {r}, maxPage)
    ensures Held(S + {r}, l)
    ensures forall x: nat {:trigger CoversWith(S + {r}, l, x)} {:trigger CoversWith(S, c, x)} ::
      CoversWith(S + {r}, l, x) <==> CoversWith(S, c, x)
  {
    hide Sorted, Tidy, Held, CoversWith, Covers, Shl, Pow2;
    SortedSizes(heads, link, lists, S, maxPage, c);
    HalfAddress(addr, c, r.o);
    SplitHeld(S, c, l, S + {r});
    RightHeld(S, c, r);
    PushSorted(heads, link, lists, S, maxPage, r, addr + Pow2(r.o));
  }

  lemma {:induction false} SortedSizes(heads: seq<int>, link: Links, lists: seq<seq<int>>, S: set<Blk>, maxPage: nat,
      c: Blk)
    requires Sorted(heads, link, lists, S, maxPage) && Held(S, c)
    ensures |heads| == MAX_ORDER == |lists| && c.o < MAX_ORDER && Tidy(S)
  {
    hide Tidy, Covers;
  }

  lemma {:induction false} RightHeld(S: set<Blk>, c: Blk, r: Blk)
    requires Held(S, c) && c.o > 0 && r.o == c.o - 1 && r.q / 2 == c.q
    ensures Held(S, r)
  {
    forall b | b in S ensures !Inside(b, r) && !Inside(r, b) {
      assert Parent(r) == c;
      HalfApart(b, r);
    }
  }

  // ----- freeing -----

  lemma {:induction false} InItsList(heads: seq<int>, link: Links, lists: seq<seq<int>>, S: set<Blk>, maxPage: nat,
      c: Blk)
    requires Sorted(heads, link, lists, S, maxPage) && c in S && c.o < MAX_ORDER
    ensures |lists| == MAX_ORDER && Shl(c.q, c.o) in lists[c.o]
  {
    BlockListed(lists, S, c);
  }

  lemma {:induction false} RemoveSorted(heads: seq<int>, link: Links, lists: seq<seq<int>>, S: set<Blk>, maxPage: nat,
      c: Blk, i: nat)
    requires Sorted(heads, link, lists, S, maxPage) && c in S && c.o < MAX_ORDER && |lists| == MAX_ORDER == |heads|
    requires i < |lists[c.o]| && lists[c.o][i] == Shl(c.q, c.o)
    ensures i == 0 ==> Sorted(heads[c.o := link[lists[c.o][0]]], link, lists[c.o := Cut(lists[c.o], 0)], S - {c},
      maxPage)
    ensures i > 0 ==> lists[c.o][i - 1] >= 0
    ensures i > 0 ==> Sorted(heads, link[lists[c.o][i - 1] := link[lists[c.o][i]]], lists[c.o := Cut(lists[c.o], i)],
      S - {c}, maxPage)
  {
    var o := c.o;
    assert ListAt(link, heads[o], lists[o]);
    CutListed(lists, S, c, i);
    TakeBlock(S, c);
    if i == 0 {
      PopLinked(heads, link, lists, o);
    } else {
      forall t: nat, p | t < MAX_ORDER && t != o && p in lists[t] ensures p !in lists[o] {
        assert ListAt(link, heads[t], lists[t]);
        ListsApart(lists, S, t, o, p);
      }
      UnlinkLinked(heads, link, lists, o, i);
    }
  }

  lemma {:induction false} LiveFacts(S: set<Blk>, c: Blk, p: nat, maxPage: nat, bm: seq<nat>)
    requires Live(S, c, p, maxPage) && Mirrors(bm, S, maxPage)
    ensures p + Pow2(c.o) <= 8 * |bm|
  {
  }

  lemma {:induction false} ReleasedBits(S: set<Blk>, c: Blk, p: nat, maxPage: nat, bm: seq<nat>, bm': seq<nat>)
    requires Live(S, c, p, maxPage) && Mirrors(bm, S, maxPage) && |bm'| == |bm|
    requires forall y: nat {:trigger PageBit(bm', y)} :: y < 8 * |bm'| ==>
      (PageBit(bm', y) <==> PageBit(bm, y) && !(p <= y < p + Pow2(c.o)))
    ensures MirrorsWith(bm', S, c, maxPage) && SameUnion(S, c, S, c)
    ensures !Covers(S, 0) ==> !CoversWith(S, c, 0)
    ensures forall y: nat {:trigger PageBit(bm', y)} :: y < 8 * |bm'| ==>
      (PageBit(bm', y) <==> PageBit(bm, y) && Shr(y, c.o) != c.q)
  {
    BlockRange(c, 0);
    forall y: nat {:trigger PageBit(bm', y)} | y < 8 * |bm'| ensures PageBit(bm', y) <==>
      PageBit(bm, y) && Shr(y, c.o) != c.q {
      BlockRange(c, y);
    }
    forall x: nat {:trigger PageBit(bm', x)} {:trigger CoversWith(S, c, x)} | x < maxPage ensures PageBit(bm', x) <==>
      !CoversWith(S, c, x) {
      BlockRange(c, x);
      assert PageBit(bm, x) <==> !Covers(S, x);
    }
  }

  /** The early exits of the merge loop are taken only when the buddy is not free. */
  lemma {:induction false} BuddyFacts(heads: seq<int>, link: Links, lists: seq<seq<int>>, S: set<Blk>, maxPage: nat,
      c: Blk, page: nat, buddy: nat, bm: seq<nat>)
    requires Sorted(heads, link, lists, S, maxPage) && Live(S, c, page, maxPage) && buddy == FlipBit(page, c.o)
    requires MirrorsWith(bm, S, c, maxPage) && c.o < MAX_ORDER
    ensures buddy == Shl(Sibling(c.q), c.o) && Buddy(c).o == c.o
    ensures |lists| == MAX_ORDER && (buddy in lists[c.o] <==> Buddy(c) in S)
    ensures maxPage <= 8 * |bm|
    ensures buddy >= maxPage ==> Buddy(c) !in S
    ensures buddy < maxPage && PageBit(bm, buddy) ==> Buddy(c) !in S
  {
    var d := Buddy(c);
    FlipIsSibling(c.q, c.o);
    BlockListed(lists, S, d);
    if d in S {
      assert Shl(d.q, d.o) + Pow2(d.o) <= maxPage;
      BlockRange(d, buddy);
      MemberCovered(S, d);
      assert Covers(S, buddy);
      assert CoversWith(S, c, buddy);
    }
  }

  lemma {:induction false} MergeFacts(S0: set<Blk>, c0: Blk, heads: seq<int>, link: Links, lists: seq<seq<int>>,
      S: set<Blk>, c: Blk, page: nat, buddy: nat, maxPage: nat, bm: seq<nat>, p: nat)
    requires Sorted(heads, link, lists, S, maxPage) && Live(S, c, page, maxPage) && !CoversWith(S, c, 0)
      && c.o < MAX_ORDER - 1
    requires buddy == Shl(Sibling(c.q), c.o) && Buddy(c) in S && c == Blk(Shr(p, c.o), c.o)
    requires SameUnion(S0, c0, S, c) && MirrorsWith(bm, S, c, maxPage)
    ensures Live(S - {Buddy(c)}, Parent(c), if buddy < page then buddy else page, maxPage)
    ensures SameUnion(S0, c0, S - {Buddy(c)}, Parent(c)) && MirrorsWith(bm, S - {Buddy(c)}, Parent(c), maxPage)
    ensures !CoversWith(S - {Buddy(c)}, Parent(c), 0)
    ensures Parent(c) == Blk(Shr(p, c.o + 1), c.o + 1)
  {
    assert Tidy(S) && Shl(Sibling(c.q), c.o) + Pow2(c.o) <= maxPage;
    hide Sorted, CoversWith, Held, Shl, Shr, PageBit;
    var S', d := S - {Buddy(c)}, Parent(c);
    MergeHeld(S, c, S');
    FlipIsSibling(c.q, c.o);
    ShrNext(p, c.o);
    ParentRange(c, page, buddy);
    assert CoversWith(S', d, 0) <==> CoversWith(S, c, 0);
    StartCovered(S', d);
    forall x: nat {:trigger CoversWith(S', d, x)} {:trigger CoversWith(S0, c0, x)} ensures CoversWith(S', d, x) <==>
      CoversWith(S0, c0, x) {
      assert CoversWith(S', d, x) <==> CoversWith(S, c, x);
    }
    forall x: nat {:trigger PageBit(bm, x)} {:trigger CoversWith(S', d, x)} | x < maxPage ensures PageBit(bm, x) <==>
      !CoversWith(S', d, x) {
      assert CoversWith(S', d, x) <==> CoversWith(S, c, x);
    }
  }

  lemma {:induction false} ParentRange(c: Blk, page: nat, buddy: nat)
    requires page == Shl(c.q, c.o) && buddy == Shl(Sibling(c.q), c.o)
    ensures var start := if buddy < page then buddy else page;
      start == Shl(Parent(c).q, Parent(c).o)
        && (start + Pow2(c.o + 1) == page + Pow2(c.o) || start + Pow2(c.o + 1) == buddy + Pow2(c.o))
  {
    FlipIsSibling(c.q, c.o);
    if c.q % 2 == 0 {
      ShlPlus(c.q, 1, c.o);
    } else {
      ShlPlus(c.q - 1, 1, c.o);
    }
  }

  /** If a block starts at page zero, page zero is covered with it. */
  lemma {:induction false} StartCovered(S: set<Blk>, c: Blk)
    ensures Shl(c.q, c.o) == 0 ==> CoversWith(S, c, 0)
  {
    BlockRange(c, 0);
    assert Pow2(c.o) >= 1;
  }

  lemma {:induction false} PutSorted(S0: set<Blk>, c0: Blk, heads: seq<int>, link: Links, lists: seq<seq<int>>,
      S: set<Blk>, maxPage: nat, c: Blk, page: nat, bm0: seq<nat>, bm: seq<nat>)
    requires Sorted(heads, link, lists, S, maxPage) && Live(S, c, page, maxPage)
      && (c.o == MAX_ORDER - 1 || Buddy(c) !in S)
    requires SameUnion(S0, c0, S, c) && MirrorsWith(bm, S, c, maxPage) && !CoversWith(S, c, 0) && |bm| == |bm0|
    requires forall y: nat {:trigger PageBit(bm, y)} :: y < 8 * |bm| ==>
      (PageBit(bm, y) <==> PageBit(bm0, y) && Shr(y, c0.o) != c0.q)
    ensures c.o < MAX_ORDER && |heads| == MAX_ORDER == |lists|
    ensures Sorted(heads[c.o := page], link[page := heads[c.o]], lists[c.o := [page] + lists[c.o]], S + {c}, maxPage)
    ensures Released(S0, S + {c}, bm0, bm, c0) && Mirrors(bm, S + {c}, maxPage) && !Covers(S + {c}, 0)
  {
    PutBlock(S, c);
    PushSorted(heads, link, lists, S, maxPage, c, page);
    hide Sorted, CoversWith, Covers, PageBit, Held;
    assert Covers(S + {c}, 0) <==> CoversWith(S, c, 0);
    forall x: nat {:trigger Covers(S0, x)} {:trigger Covers(S + {c}, x)} ensures Covers(S + {c}, x) <==>
      CoversWith(S0, c0, x) {
      assert Covers(S + {c}, x) <==> CoversWith(S, c, x);
    }
    forall x: nat {:trigger PageBit(bm, x)} {:trigger Covers(S + {c}, x)} | x < maxPage ensures PageBit(bm, x) <==>
      !Covers(S + {c}, x) {
      assert Covers(S + {c}, x) <==> CoversWith(S, c, x);
    }
  }

  // ----- the tiling of a usable range -----

  lemma {:induction false} EmptyCover()
    ensures Tidy({}) && forall x: nat {:trigger Covers({}, x)} :: !Covers({}, x)
  {
  }

  lemma {:induction false} FullBitmap(bm: seq<nat>)
    requires forall i :: 0 <= i < |bm| ==> bm[i] == 255
    ensures Bytes(bm) && forall y: nat {:trigger PageBit(bm, y)} :: y < 8 * |bm| ==> PageBit(bm, y)
  {
    Pow2Values();
    forall y: nat {:trigger PageBit(bm, y)} | y < 8 * |bm| ensures PageBit(bm, y) {
      AllOnes(y % 8);
    }
  }

  /** `cur % 2^o == 0` */
  predicate Aligned(cur: nat, o: nat)
  {
    Shl(Shr(cur, o), o) == cur
  }

  /** A block of order o fits at page cur. */
  predicate Fits(cur: nat, end: nat, o: nat)
  {
    cur + Pow2(o) <= end && Aligned(cur, o)
  }

  lemma {:induction false} FitsDown(cur: nat, end: nat, o: nat)
    requires Fits(cur, end, o + 1)
    ensures Fits(cur, end, o)
  {
    var q := Shr(cur, o + 1);
    ShlDouble(q, o);
    ShrOfShl(2 * q, o);
  }

  lemma {:induction false} FitsBelow(cur: nat, end: nat, o: nat, o': nat)
    requires o <= o' && !Fits(cur, end, o)
    ensures !Fits(cur, end, o')
  {
    if o < o' && Fits(cur, end, o') {
      FitsDown(cur, end, o' - 1);
      FitsBelow(cur, end, o, o' - 1);
    }
  }

  /** The largest order that fits. */
  method GreedyOrder(cur: nat, end: nat) returns (order: nat)
    requires cur < end
    ensures order < MAX_ORDER && Fits(cur, end, order)
    ensures forall o: nat :: order < o < MAX_ORDER ==> !Fits(cur, end, o)
  {
    order := 0;
    assert Fits(cur, end, 0) by {
      assert Shr(cur, 0) == cur && Shl(cur, 0) == cur;
    }
    hide Fits;
    while order < MAX_ORDER - 1 && Fits(cur, end, order + 1)
      invariant order < MAX_ORDER && Fits(cur, end, order)
    {
      order := order + 1;
    }
    forall o: nat | order < o < MAX_ORDER ensures !Fits(cur, end, o) {
      FitsBelow(cur, end, order + 1, o);
    }
  }

  /** No page from just before base up to and including end is free. */
  ghost predicate Untouched(S: set<Blk>, base: nat, end: nat)
  {
    forall x: nat {:trigger Covers(S, x)} :: base <= x + 1 && x <= end ==> !Covers(S, x)
  }

  /** The pages from base to cur joined the free ones, and no other. */
  ghost predicate Joined(S0: set<Blk>, S: set<Blk>, base: nat, cur: nat)
  {
    forall x: nat {:trigger Covers(S, x)} {:trigger Covers(S0, x)} :: Covers(S, x) <==> Covers(S0, x) || base <= x < cur
  }

  /** Blocks placed so far could not have been larger. */
  ghost predicate Greedy(S: set<Blk>, base: nat, cur: nat, end: nat)
  {
    forall b: Blk {:trigger b in S} :: b in S && base <= Shl(b.q, b.o) < cur && b.o < MAX_ORDER - 1 && b.q % 2 == 0 ==>
      Shl(b.q, b.o) + Pow2(b.o + 1) > end
  }

  lemma {:induction false} JoinedNone(S: set<Blk>, base: nat, end: nat)
    ensures Joined(S, S, base, base) && Greedy(S, base, base, end)
    ensures end <= base ==> Joined(S, S, base, end)
  {
  }

  /** The next tile overlaps nothing and its buddy is not free. */
  lemma {:induction false} TileSorted(heads: seq<int>, link: Links, lists: seq<seq<int>>, S0: set<Blk>, S: set<Blk>,
      maxPage: nat,
                                      base: nat, cur: nat, end: nat, c: Blk, bm: seq<nat>)
    requires Sorted(heads, link, lists, S, maxPage) && Mirrors(bm, S, maxPage) && !Covers(S, 0)
    requires Joined(S0, S, base, cur) && Greedy(S, base, cur, end) && Untouched(S0, base, end)
      && 0 < base <= cur < end <= maxPage
    requires c == Blk(Shr(cur, c.o), c.o) && c.o < MAX_ORDER && Fits(cur, end, c.o)
    requires c.o + 1 < MAX_ORDER ==> !Fits(cur, end, c.o + 1)
    ensures |heads| == MAX_ORDER == |lists| && cur + Pow2(c.o) <= end && cur + Pow2(c.o) <= 8 * |bm|
    ensures Live(S, c, cur, maxPage)
    ensures Sorted(heads[c.o := cur], link[cur := heads[c.o]], lists[c.o := [cur] + lists[c.o]], S + {c}, maxPage)
    ensures Gained(S, c, S + {c})
    ensures Joined(S0, S + {c}, base, cur + Pow2(c.o)) && Greedy(S + {c}, base, cur + Pow2(c.o), end)
  {
    TileHeld(S0, S, base, cur, end, c);
    TileAlone(S0, S, base, cur, end, c);
    PutBlock(S, c);
    PushSorted(heads, link, lists, S, maxPage, c, cur);
    TileJoined(S0, S, base, cur, c);
    TileGreedy(S0, S, base, cur, end, c);
  }

  /** A free page lies in the part tiled so far or away from the range. */
  lemma {:induction false} NotAhead(S0: set<Blk>, S: set<Blk>, base: nat, cur: nat, end: nat, b: Blk, x: nat)
    requires Orders(S) && Joined(S0, S, base, cur) && Untouched(S0, base, end) && b in S && Shr(x, b.o) == b.q
    ensures x + 1 < base || base <= x < cur || end < x
  {
    MemberCovered(S, b);
    assert Covers(S, x);
  }

  lemma {:induction false} SharedPage(b: Blk, c: Blk) returns (x: nat)
    requires Inside(b, c)
    ensures Shr(x, b.o) == b.q && Shr(x, c.o) == c.q
  {
    x := Shl(b.q, b.o);
    ShrOfShl(b.q, b.o);
    ShrShr(x, b.o, c.o - b.o);
  }

  lemma {:induction false} TileHeld(S0: set<Blk>, S: set<Blk>, base: nat, cur: nat, end: nat, c: Blk)
    requires Orders(S) && Joined(S0, S, base, cur) && Untouched(S0, base, end) && base <= cur
    requires c.o < MAX_ORDER && Shl(c.q, c.o) == cur && cur + Pow2(c.o) <= end
    ensures Held(S, c)
  {
    forall b | b in S ensures !Inside(b, c) && !Inside(c, b) {
      if Inside(b, c) || Inside(c, b) {
        var x: nat;
        if Inside(b, c) {
          x := SharedPage(b, c);
        } else {
          x := SharedPage(c, b);
        }
        BlockRange(c, x);
        NotAhead(S0, S, base, cur, end, b, x);
      }
    }
  }

  lemma {:induction false} GreedyAt(S: set<Blk>, base: nat, cur: nat, end: nat, b: Blk)
    requires Greedy(S, base, cur, end) && b in S && base <= Shl(b.q, b.o) < cur && b.o < MAX_ORDER - 1 && b.q % 2 == 0
    ensures Shl(b.q, b.o) + 2 * Pow2(b.o) > end
  {
  }

  lemma {:induction false} TileAlone(S0: set<Blk>, S: set<Blk>, base: nat, cur: nat, end: nat, c: Blk)
    requires Orders(S) && Joined(S0, S, base, cur) && Greedy(S, base, cur, end) && Untouched(S0, base, end)
      && 0 < base <= cur
    requires c.o < MAX_ORDER && Shl(c.q, c.o) == cur && cur + Pow2(c.o) <= end
    ensures c.o == MAX_ORDER - 1 || Buddy(c) !in S
  {
    var d := Buddy(c);
    if c.o < MAX_ORDER - 1 && d in S {
      if c.q % 2 == 0 {
        ShlPlus(c.q, 1, c.o);
        BlockRange(d, cur + Pow2(c.o));
        NotAhead(S0, S, base, cur, end, d, cur + Pow2(c.o));
      } else {
        ShlPlus(d.q, 1, c.o);
        if Shl(d.q, d.o) < base {
          BlockRange(d, base - 1);
          NotAhead(S0, S, base, cur, end, d, base - 1);
        } else {
          GreedyAt(S, base, cur, end, d);
        }
      }
    }
  }

  lemma {:induction false} TileJoined(S0: set<Blk>, S: set<Blk>, base: nat, cur: nat, c: Blk)
    requires Joined(S0, S, base, cur) && Gained(S, c, S + {c}) && Shl(c.q, c.o) == cur && base <= cur
    ensures Joined(S0, S + {c}, base, cur + Pow2(c.o))
  {
    forall x: nat {:trigger Covers(S + {c}, x)} {:trigger Covers(S0, x)} ensures Covers(S + {c}, x) <==>
      Covers(S0, x) || base <= x < cur + Pow2(c.o) {
      BlockRange(c, x);
      assert Covers(S, x) <==> Covers(S0, x) || base <= x < cur;
      assert Covers(S + {c}, x) <==> CoversWith(S, c, x);
    }
  }

  lemma {:induction false} TileGreedy(S0: set<Blk>, S: set<Blk>, base: nat, cur: nat, end: nat, c: Blk)
    requires Orders(S) && Joined(S0, S, base, cur) && Greedy(S, base, cur, end) && Untouched(S0, base, end)
      && 0 < base <= cur < end
    requires c == Blk(Shr(cur, c.o), c.o) && c.o < MAX_ORDER && Fits(cur, end, c.o)
    requires c.o + 1 < MAX_ORDER ==> !Fits(cur, end, c.o + 1)
    ensures Greedy(S + {c}, base, cur + Pow2(c.o), end)
  {
    forall b: Blk {:trigger b in S + {c}} | b in S + {c} && base <= Shl(b.q, b.o) < cur + Pow2(c.o)
      && b.o < MAX_ORDER - 1 && b.q % 2 == 0
      ensures Shl(b.q, b.o) + Pow2(b.o + 1) > end
    {
      if b == c {
        ShlDouble(c.q / 2, c.o);
        ShrNext(cur, c.o);
        assert Aligned(cur, c.o + 1);
      } else {
        StartCoveredBy(S, b);
        assert Covers(S, Shl(b.q, b.o));
        assert !(cur <= Shl(b.q, b.o) <= end);
      }
    }
  }

  lemma {:induction false} StartCoveredBy(S: set<Blk>, b: Blk)
    requires b in S && b.o < MAX_ORDER
    ensures Covers(S, Shl(b.q, b.o))
  {
    MemberCovered(S, b);
    ShrOfShl(b.q, b.o);
  }

  lemma {:induction false} TileBits(S: set<Blk>, c: Blk, p: nat, maxPage: nat, bm: seq<nat>, bm': seq<nat>)
    requires Live(S, c, p, maxPage) && Mirrors(bm, S, maxPage) && |bm'| == |bm| && !Covers(S, 0)
      && Gained(S, c, S + {c})
    requires forall y: nat {:trigger PageBit(bm', y)} :: y < 8 * |bm'| ==>
      (PageBit(bm', y) <==> PageBit(bm, y) && !(p <= y < p + Pow2(c.o)))
    ensures Mirrors(bm', S + {c}, maxPage) && !Covers(S + {c}, 0)
  {
    ReleasedBits(S, c, p, maxPage, bm, bm');
    hide Live, Covers, CoversWith, PageBit;
    assert Covers(S + {c}, 0) <==> CoversWith(S, c, 0);
    forall x: nat {:trigger PageBit(bm', x)} {:trigger Covers(S + {c}, x)} | x < maxPage ensures PageBit(bm', x) <==>
      !Covers(S + {c}, x) {
      assert Covers(S + {c}, x) <==> CoversWith(S, c, x);
    }
  }
}
