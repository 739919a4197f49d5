/** State of the physical page allocator: singly linked free lists threaded through the
    free pages, and a bitmap with one bit per page. Addresses are in units of pages. */
module PmmState {
  import opened Shifts
  import opened Bits
  import opened BuddyTree

  const NIL: int := -1

  ghost predicate TotalLinks(m: imap<int, int>) { forall a: int :: a in m }

  /** The first word of every page, by page number. */
  type Links = m: imap<int, int> | TotalLinks(m) ghost witness imap a: int | true :: 0

  // ----- linked lists in memory -----

  function First(s: seq<int>): int { if s == [] then NIL else s[0] }

  /** Following the links from h gives s. */
  ghost predicate ListAt(link: Links, h: int, s: seq<int>)
  {
    && h == First(s)
    && (forall i {:trigger s[i]} :: 0 <= i < |s| ==> s[i] >= 0 && link[s[i]] == (if i + 1 < |s| then s[i + 1] else NIL))
    && (forall i, j :: 0 <= i < j < |s| ==> s[i] != s[j])
  }

  lemma {:induction false} ListNext(link: Links, h: int, s: seq<int>, i: nat)
    requires ListAt(link, h, s) && i + 1 < |s|
    ensures link[s[i]] == s[i + 1]
  {
  }

  lemma {:induction false} ListFrame(link: Links, link': Links, h: int, s: seq<int>)
    requires ListAt(link, h, s)
    requires forall i :: 0 <= i < |s| ==> link'[s[i]] == link[s[i]]
    ensures ListAt(link', h, s)
  {
  }

  lemma {:induction false} ListPush(link: Links, h: int, s: seq<int>, p: int)
    requires ListAt(link, h, s) && p !in s && p >= 0
    ensures ListAt(link[p := h], p, [p] + s)
  {
    var s', link' := [p] + s, link[p := h];
    forall i {:trigger s'[i]} | 0 <= i < |s'|
      ensures s'[i] >= 0 && link'[s'[i]] == (if i + 1 < |s'| then s'[i + 1] else NIL)
    {
      if i > 0 {
        assert s'[i] == s[i - 1];
      }
    }
  }

  function Cut(s: seq<int>, i: nat): (r: seq<int>)
    requires i < |s|
  {
    s[..i] + s[i + 1..]
  }

  lemma {:induction false} CutAt(s: seq<int>, i: nat, j: nat)
    requires i < |s| && j < |s| - 1
    ensures |Cut(s, i)| == |s| - 1 && Cut(s, i)[j] == if j < i then s[j] else s[j + 1]
  {
  }

  lemma {:induction false} CutDistinct(s: seq<int>, i: nat)
    requires i < |s| && forall a, b :: 0 <= a < b < |s| ==> s[a] != s[b]
    ensures forall a, b :: 0 <= a < b < |Cut(s, i)| ==> Cut(s, i)[a] != Cut(s, i)[b]
  {
    forall a, b | 0 <= a < b < |Cut(s, i)| ensures Cut(s, i)[a] != Cut(s, i)[b] {
      CutAt(s, i, a);
      CutAt(s, i, b);
    }
  }

  /** Dropping the head. */
  lemma {:induction false} ListPop(link: Links, h: int, s: seq<int>)
    requires ListAt(link, h, s) && 0 < |s|
    ensures ListAt(link, link[s[0]], s[1..]) && Cut(s, 0) == s[1..]
  {
    var s' := s[1..];
    forall j {:trigger s'[j]} | 0 <= j < |s'|
      ensures s'[j] >= 0 && link[s'[j]] == (if j + 1 < |s'| then s'[j + 1] else NIL)
    {
      assert s'[j] == s[j + 1];
    }
    assert link[s[0]] == First(s');
  }

  /** Unlinking a later element by redirecting its predecessor. */
  lemma {:induction false} ListUnlink(link: Links, h: int, s: seq<int>, i: nat)
    requires ListAt(link, h, s) && 0 < i < |s|
    ensures ListAt(link[s[i - 1] := link[s[i]]], h, Cut(s, i))
  {
    var s', link' := Cut(s, i), link[s[i - 1] := link[s[i]]];
    CutDistinct(s, i);
    CutAt(s, i, 0);
    forall j {:trigger s'[j]} | 0 <= j < |s'|
      ensures s'[j] >= 0 && link'[s'[j]] == (if j + 1 < |s'| then s'[j + 1] else NIL)
    {
      UnlinkAt(link, h, s, i, j);
    }
  }

  lemma {:induction false} UnlinkAt(link: Links, h: int, s: seq<int>, i: nat, j: nat)
    requires ListAt(link, h, s) && 0 < i < |s| && j < |s| - 1 && |Cut(s, i)| == |s| - 1
    ensures var s', link' := Cut(s, i), link[s[i - 1] := link[s[i]]];
      s'[j] >= 0 && link'[s'[j]] == (if j + 1 < |s'| then s'[j + 1] else NIL)
  {
    CutAt(s, i, j);
    if j + 1 < |s| - 1 {
      CutAt(s, i, j + 1);
    }
    var k := if j < i then j else j + 1;
    assert s[k] >= 0 && link[s[k]] == (if k + 1 < |s| then s[k + 1] else NIL);
    assert link[s[i]] == (if i + 1 < |s| then s[i + 1] else NIL);
    assert k != i - 1 ==> s[k] != s[i - 1];
    hide Cut;
  }

  lemma {:induction false} CutElements(s: seq<int>, i: nat, p: int)
    requires i < |s| && forall a, b :: 0 <= a < b < |s| ==> s[a] != s[b]
    ensures p in Cut(s, i) <==> p in s && p != s[i]
  {
    var s' := Cut(s, i);
    if p in s && p != s[i] {
      var j :| 0 <= j < |s| && s[j] == p;
      if j < i {
        assert s'[j] == p;
      } else {
        assert s'[j - 1] == p;
      }
    }
    if p in s' {
      var j :| 0 <= j < |s'| && s'[j] == p;
      assert s'[j] == if j < i then s[j] else s[j + 1];
    }
  }

  // ----- the lists as a set of blocks -----

  /** The lists hold exactly the first pages of the blocks in S, each on the list of its
      order. */
  ghost predicate Listed(lists: seq<seq<int>>, S: set<Blk>)
  {
    && |lists| == MAX_ORDER
    && (forall o: nat, p: nat {:trigger p in lists[o]} :: o < MAX_ORDER ==>
          (p in lists[o] <==> Blk(Shr(p, o), o) in S && p == Shl(Shr(p, o), o)))
  }

  ghost predicate Linked(heads: seq<int>, link: Links, lists: seq<seq<int>>)
  {
    && |heads| == MAX_ORDER && |lists| == MAX_ORDER
    && forall o: nat {:trigger heads[o]} {:trigger lists[o]} :: o < MAX_ORDER ==> ListAt(link, heads[o], lists[o])
  }

  lemma {:induction false} BlockListed(lists: seq<seq<int>>, S: set<Blk>, b: Blk)
    requires Listed(lists, S) && b.o < MAX_ORDER
    ensures Shl(b.q, b.o) in lists[b.o] <==> b in S
  {
    ShrOfShl(b.q, b.o);
  }

  /** The first page of a held block is on no list. */
  lemma {:induction false} HeldFresh(lists: seq<seq<int>>, S: set<Blk>, c: Blk, o: nat)
    requires Listed(lists, S) && Held(S, c) && o < MAX_ORDER
    ensures Shl(c.q, c.o) !in lists[o]
  {
    var p := Shl(c.q, c.o);
    ShrOfShl(c.q, c.o);
    if p in lists[o] {
      var b := Blk(Shr(p, o), o);
      if c.o <= o {
        ShrShr(p, c.o, o - c.o);
      } else {
        ShrShr(p, o, c.o - o);
      }
    }
  }

  lemma {:induction false} PushListed(lists: seq<seq<int>>, S: set<Blk>, c: Blk)
    requires Listed(lists, S) && c.o < MAX_ORDER
    ensures Listed(lists[c.o := [Shl(c.q, c.o)] + lists[c.o]], S + {c})
  {
    var p0 := Shl(c.q, c.o);
    ShrOfShl(c.q, c.o);
    var lists' := lists[c.o := [p0] + lists[c.o]];
    forall o: nat, p: nat {:trigger p in lists'[o]} | o < MAX_ORDER
      ensures p in lists'[o] <==> Blk(Shr(p, o), o) in S + {c} && p == Shl(Shr(p, o), o)
    {
      assert p in lists[o] <==> Blk(Shr(p, o), o) in S && p == Shl(Shr(p, o), o);
    }
  }

  lemma {:induction false} CutListed(lists: seq<seq<int>>, S: set<Blk>, c: Blk, i: nat)
    requires Listed(lists, S) && c.o < MAX_ORDER && i < |lists[c.o]| && lists[c.o][i] == Shl(c.q, c.o)
    requires forall a, b :: 0 <= a < b < |lists[c.o]| ==> lists[c.o][a] != lists[c.o][b]
    ensures Listed(lists[c.o := Cut(lists[c.o], i)], S - {c})
  {
    var p0 := Shl(c.q, c.o);
    ShrOfShl(c.q, c.o);
    var lists' := lists[c.o := Cut(lists[c.o], i)];
    forall o: nat, p: nat {:trigger p in lists'[o]} | o < MAX_ORDER
      ensures p in lists'[o] <==> Blk(Shr(p, o), o) in S - {c} && p == Shl(Shr(p, o), o)
    {
      assert p in lists[o] <==> Blk(Shr(p, o), o) in S && p == Shl(Shr(p, o), o);
      if o == c.o {
        CutElements(lists[o], i, p);
      }
    }
  }

  // ----- the bitmap -----

  predicate PageBit(bm: seq<nat>, x: nat)
    requires x < 8 * |bm|
  {
    Bit(bm[x / 8], x % 8)
  }

  function SetPage(bm: seq<nat>, x: nat): (r: seq<nat>)
    requires x < 8 * |bm|
  {
    bm[x / 8 := SetBit(bm[x / 8], x % 8)]
  }

  function ClearPage(bm: seq<nat>, x: nat): (r: seq<nat>)
    requires x < 8 * |bm|
  {
    bm[x / 8 := ClearBit(bm[x / 8], x % 8)]
  }

  lemma {:induction false} SetPageSpec(bm: seq<nat>, x: nat, y: nat)
    requires x < 8 * |bm| && y < 8 * |bm|
    ensures PageBit(SetPage(bm, x), y) <==> y == x || PageBit(bm, y)
  {
    SetBitSpec(bm[x / 8], x % 8, y % 8);
    SamePlace(x, y);
  }

  lemma {:induction false} ClearPageSpec(bm: seq<nat>, x: nat, y: nat)
    requires x < 8 * |bm| && y < 8 * |bm|
    ensures PageBit(ClearPage(bm, x), y) <==> y != x && PageBit(bm, y)
  {
    ClearBitSpec(bm[x / 8], x % 8, y % 8);
    SamePlace(x, y);
  }

  /** Every element of the bitmap is a byte. */
  ghost predicate Bytes(bm: seq<nat>)
  {
    forall i :: 0 <= i < |bm| ==> bm[i] < Pow2(8)
  }

  lemma {:induction false} SetPageBytes(bm: seq<nat>, x: nat)
    requires x < 8 * |bm| && Bytes(bm)
    ensures Bytes(SetPage(bm, x)) && Bytes(ClearPage(bm, x))
  {
    SetBitBelow(bm[x / 8], x % 8, 8);
  }

  /** Bytes with the same bits are the same bytes. */
  lemma {:induction false} SameBits(bm: seq<nat>, bm': seq<nat>)
    requires |bm| == |bm'| && Bytes(bm) && Bytes(bm')
    requires forall y: nat {:trigger PageBit(bm', y)} :: y < 8 * |bm| ==> (PageBit(bm, y) <==> PageBit(bm', y))
    ensures bm == bm'
  {
    forall i: nat | i < |bm| ensures bm[i] == bm'[i] {
      forall j: nat ensures Bit(bm[i], j) <==> Bit(bm'[i], j) {
        if j < 8 {
          assert (8 * i + j) / 8 == i && (8 * i + j) % 8 == j;
          assert PageBit(bm, 8 * i + j) <==> PageBit(bm', 8 * i + j);
        } else {
          HighBit(bm[i], 8, j);
          HighBit(bm'[i], 8, j);
        }
      }
      BitsDetermine(bm[i], bm'[i]);
    }
  }

  lemma {:induction false} HighBit(w: nat, n: nat, j: nat)
    requires w < Pow2(n) && n <= j
    ensures !Bit(w, j)
  {
    if n > 0 {
      HighBit(w / 2, n - 1, j - 1);
    } else {
      ShrZero(j);
    }
  }

  lemma {:induction false} SamePlace(x: nat, y: nat)
    ensures x / 8 == y / 8 && x % 8 == y % 8 <==> x == y
  {
  }

  /** Pages of a block are a range of page numbers. */
  lemma {:induction false} BlockRange(b: Blk, x: nat)
    ensures Shr(x, b.o) == b.q <==> Shl(b.q, b.o) <= x < Shl(b.q, b.o) + Pow2(b.o)
  {
    ShrShl(x, b.o);
    ShlPlus(b.q, 1, b.o);
    if Shl(b.q, b.o) <= x < Shl(b.q, b.o) + Pow2(b.o) {
      ShrUnique(x, b.o, b.q);
    } else if Shr(x, b.o) == b.q {
      assert false;
    }
  }

  /** Bits are clear exactly for covered pages. */
  ghost predicate Mirrors(bm: seq<nat>, S: set<Blk>, maxPage: nat)
  {
    maxPage <= 8 * |bm| && forall x: nat {:trigger PageBit(bm, x)} {:trigger Covers(S, x)} :: x < maxPage ==>
      (PageBit(bm, x) <==> !Covers(S, x))
  }

  ghost predicate InRange(S: set<Blk>, maxPage: nat)
  {
    forall b :: b in S ==> Shl(b.q, b.o) + Pow2(b.o) <= maxPage
  }
}
