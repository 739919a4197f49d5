/** The segregated free lists: links, list heads and bitmaps. */
module TlsfLists {
  import opened Shifts
  import opened Bits
  import opened TlsfMap
  import opened TlsfState
  import opened TlsfPhys

  // ----- insert_free_block -----

  function InsertN(node: map<int, Node>, tab: seq<int>, nil: int, b: int, i: int): (r: map<int, Node>)
    requires 0 <= i < |tab| && (tab[i] != nil ==> tab[i] in node)
  {
    var h := tab[i];
    if h == nil then node[b := Node(nil, nil, i, 0)]
    else node[h := node[h].(prev := b)][b := Node(h, nil, i, node[h].rank + 1)]
  }

  lemma {:induction false} InsertLists(node: map<int, Node>, tab: seq<int>, nil: int, b: int, i: int)
    requires Lists(node, tab, nil) && 0 <= i < LISTS && b !in node && b != nil
    ensures Lists(InsertN(node, tab, nil, b, i), tab[i := b], nil)
    ensures InsertN(node, tab, nil, b, i).Keys == node.Keys + {b}
  {
    var h := tab[i];
    var node', tab' := InsertN(node, tab, nil, b, i), tab[i := b];
    forall c {:trigger node'[c].next} | c in node' && node'[c].next != nil
      ensures var n := node'[c].next;
        n in node' && node'[n].prev == c && node'[n].cls == node'[c].cls && node'[n].rank < node'[c].rank
    {
      if c != b {
        assert node'[c].next == node[c].next;
      }
    }
    forall c {:trigger node'[c].prev} | c in node' && node'[c].prev != nil
      ensures var p := node'[c].prev; p in node' && node'[p].next == c && node'[p].cls == node'[c].cls
    {
      if c != b && c != h {
        assert node'[c].prev == node[c].prev;
      }
    }
    forall c {:trigger node'[c].prev} | c in node' && node'[c].prev == nil
      ensures tab'[node'[c].cls] == c
    {
      if c != b {
        assert node'[c].prev == node[c].prev;
      }
    }
    forall j {:trigger tab'[j]} | 0 <= j < LISTS && tab'[j] != nil
      ensures tab'[j] in node' && node'[tab'[j]].prev == nil && node'[tab'[j]].cls == j
    {
      if j != i {
        assert tab'[j] == tab[j];
      }
    }
  }

  lemma {:induction false} InsertEffect(node: map<int, Node>, tab: seq<int>, nil: int, b: int, i: int, node': map<int,
      Node>, d: int)
    requires 0 <= i < |tab| && (tab[i] != nil ==> tab[i] in node) && b !in node && b != nil && nil !in node
    requires node' == InsertN(node, tab, nil, b, i) && d in node'
    ensures d != b ==> d in node
    ensures node'[d].next == if d == b then tab[i] else node[d].next
    ensures node'[d].prev == if d == b then nil else if d == tab[i] then b else node[d].prev
  {
  }

  // ----- remove_free_block -----

  function RemoveN(node: map<int, Node>, nil: int, b: int): (r: map<int, Node>)
    requires b in node
    requires node[b].next != nil ==> node[b].next in node
    requires node[b].prev != nil ==> node[b].prev in node
  {
    var n, p := node[b].next, node[b].prev;
    var node1 := if n == nil then node else node[n := node[n].(prev := p)];
    var node2 := if p == nil then node1 else node1[p := node1[p].(next := n)];
    node2 - {b}
  }

  function RemoveT(node: map<int, Node>, tab: seq<int>, b: int): (r: seq<int>)
    requires b in node && 0 <= node[b].cls < |tab|
  {
    if tab[node[b].cls] == b then tab[node[b].cls := node[b].next] else tab
  }

  ghost predicate Removable(node: map<int, Node>, tab: seq<int>, nil: int, b: int)
  {
    && Lists(node, tab, nil) && b in node
    && (node[b].next != nil ==> node[b].next in node && node[node[b].next].prev == b)
    && (node[b].prev != nil ==> node[b].prev in node && node[node[b].prev].next == b)
    && node[b].next != b && node[b].prev != b
  }

  lemma {:induction false} RemoveEffect(node: map<int, Node>, tab: seq<int>, nil: int, b: int, node': map<int, Node>)
    requires Removable(node, tab, nil, b) && node' == RemoveN(node, nil, b)
    ensures node'.Keys == node.Keys - {b}
    ensures forall c :: c in node' ==>
      node'[c] == node[c].(next := if c == node[b].prev then node[b].next else node[c].next,
                           prev := if c == node[b].next then node[b].prev else node[c].prev)
  {
  }

  lemma {:induction false} RemoveNext(node: map<int, Node>, tab: seq<int>, nil: int, b: int, node': map<int, Node>,
      c: int)
    requires Removable(node, tab, nil, b) && node' == RemoveN(node, nil, b)
    requires c in node' && node'[c].next != nil
    ensures var d := node'[c].next;
      d in node' && node'[d].prev == c && node'[d].cls == node'[c].cls && node'[d].rank < node'[c].rank
  {
    RemoveEffect(node, tab, nil, b, node');
    assert node[c].next != nil ==> node[c].next in node;
    if c != node[b].prev {
      assert node'[c].next == node[c].next;
    } else {
      assert node[c].next == b;
    }
  }

  lemma {:induction false} RemovePrev(node: map<int, Node>, tab: seq<int>, nil: int, b: int, node': map<int, Node>,
      c: int)
    requires Removable(node, tab, nil, b) && node' == RemoveN(node, nil, b)
    requires c in node' && node'[c].prev != nil
    ensures var p := node'[c].prev; p in node' && node'[p].next == c && node'[p].cls == node'[c].cls
  {
    RemoveEffect(node, tab, nil, b, node');
    assert node[c].prev != nil ==> node[c].prev in node;
    if c != node[b].next {
      assert node'[c].prev == node[c].prev;
    } else {
      assert node[c].prev == b;
    }
  }

  lemma {:induction false} RemoveHead(node: map<int, Node>, tab: seq<int>, nil: int, b: int, node': map<int, Node>,
      tab': seq<int>)
    requires Removable(node, tab, nil, b) && node' == RemoveN(node, nil, b) && tab' == RemoveT(node, tab, b)
    ensures forall c {:trigger node'[c].prev} :: c in node' && node'[c].prev == nil ==> tab'[node'[c].cls] == c
  {
    RemoveEffect(node, tab, nil, b, node');
    forall c {:trigger node'[c].prev} | c in node' && node'[c].prev == nil ensures tab'[node'[c].cls] == c {
      if c == node[b].next {
        assert node[b].prev == nil;
        assert node[c].cls == node[b].cls;
      } else {
        assert node[c].prev == nil;
        assert tab[node[c].cls] == c;
      }
    }
  }

  lemma {:induction false} RemoveTable(node: map<int, Node>, tab: seq<int>, nil: int, b: int, node': map<int, Node>,
      tab': seq<int>)
    requires Removable(node, tab, nil, b) && node' == RemoveN(node, nil, b) && tab' == RemoveT(node, tab, b)
    ensures forall i {:trigger tab'[i]} :: 0 <= i < LISTS && tab'[i] != nil ==>
      tab'[i] in node' && node'[tab'[i]].prev == nil && node'[tab'[i]].cls == i
  {
    RemoveEffect(node, tab, nil, b, node');
    forall i {:trigger tab'[i]} | 0 <= i < LISTS && tab'[i] != nil
      ensures tab'[i] in node' && node'[tab'[i]].prev == nil && node'[tab'[i]].cls == i
    {
      var h := tab[i];
      if i == node[b].cls && h == b {
        assert node[b].prev == nil;
        assert node[node[b].next].cls == i;
      } else {
        assert tab'[i] == h && h != b;
        assert node[h].prev == nil;
        assert h != node[b].next;
      }
    }
  }

  /** Unlinking a block leaves well-formed lists without it. */
  lemma {:induction false} RemoveLists(node: map<int, Node>, tab: seq<int>, nil: int, b: int)
    requires Lists(node, tab, nil) && b in node
    ensures Removable(node, tab, nil, b)
    ensures Lists(RemoveN(node, nil, b), RemoveT(node, tab, b), nil)
    ensures RemoveN(node, nil, b).Keys == node.Keys - {b}
  {
    assert node[b].next != nil ==> node[b].next in node;
    assert node[b].prev != nil ==> node[b].prev in node;
    var node', tab' := RemoveN(node, nil, b), RemoveT(node, tab, b);
    RemoveEffect(node, tab, nil, b, node');
    forall c {:trigger node'[c].next} | c in node' && node'[c].next != nil
      ensures var d := node'[c].next;
        d in node' && node'[d].prev == c && node'[d].cls == node'[c].cls && node'[d].rank < node'[c].rank
    {
      RemoveNext(node, tab, nil, b, node', c);
    }
    forall c {:trigger node'[c].prev} | c in node' && node'[c].prev != nil
      ensures var p := node'[c].prev; p in node' && node'[p].next == c && node'[p].cls == node'[c].cls
    {
      RemovePrev(node, tab, nil, b, node', c);
    }
    RemoveHead(node, tab, nil, b, node', tab');
    RemoveTable(node, tab, nil, b, node', tab');
  }

  // ----- writing link words and list heads -----

  ghost predicate LinkWord(k: Blocks, base: int, x: int, a: int)
  {
    (x == base || x in k.free) && (a == x + 16 || a == x + 24)
  }

  /** A link word of a free block, or of the null block, is nobody's header, back link or
      payload. */
  lemma {:induction false} LinkWordHeader(k: Blocks, base: int, last: int, x: int, a: int, c: int)
    requires Tiles(k.size, base + 6528, last) && k.free <= k.size.Keys && last !in k.free
    requires LinkWord(k, base, x, a) && c in k.size
    ensures a != c + 8 && a != c && a <= last
  {
    if x in k.free {
      assert x in k.size;
    }
  }

  lemma {:induction false} LinkWordPayload(k: Blocks, base: int, last: int, x: int, a: int, u: int)
    requires Tiles(k.size, base + 6528, last) && k.free <= k.size.Keys && last !in k.free
    requires LinkWord(k, base, x, a) && Used(k, u)
    ensures a < u + 16 || u + 16 + k.size[u] <= a
  {
    if x in k.free {
      assert x in k.size;
    }
  }

  /** The two memories agree on every header and back link and on every used payload.
      The first block has no back link: that word is the last list head. */
  ghost predicate SameChain(m: Mem, m': Mem, k: Blocks, base: int)
  {
    && (forall c :: c in k.size ==> m'[c + 8] == m[c + 8] && (c != base + 6528 ==> m'[c] == m[c]))
    && (forall u, a {:trigger Used(k, u), m'[a]} :: Used(k, u) && u + 16 <= a < u + 16 + k.size[u] ==> m'[a] == m[a])
  }

  lemma {:induction false} SameChainSound(m: Mem, m': Mem, k: Blocks, base: int, last: int)
    requires Chain(m, k, base + 6528, last, NOWHERE) && SameChain(m, m', k, base)
    ensures Chain(m', k, base + 6528, last, NOWHERE)
    ensures Kept(m, k, m', k, NOWHERE)
  {
    forall c {:trigger PrevPhys(m', c)} | c in k.prevFree
      ensures PrevPhys(m', c) == PrevPhys(m, c)
    {
      assert c in k.size;
    }
  }

  /** Two blocks that can hold links are at least a header apart, and both are above the
      control block. */
  ghost predicate Apart(base: int, d: int, e: int)
  {
    base + 6528 <= d && base + 6528 <= e && (d == e || d + 32 <= e || e + 32 <= d)
  }

  lemma {:induction false} BlocksApart(size: map<int, int>, base: int, first: int, last: int, d: int, e: int)
    requires Tiles(size, first, last) && first == base + 6528
    requires d in size && e in size && d != last && e != last
    ensures Apart(base, d, e)
  {
  }

  function InsertM(m: Mem, base: int, b: int, i: int): (r: Mem)
  {
    var h := m[Slot(base, i)];
    m[b + 16 := h][b + 24 := base][h + 24 := b][Slot(base, i) := b]
  }

  lemma {:induction false} InsertSameAt(m: Mem, base: int, b: int, i: int, h: int, a: int)
    requires h == m[Slot(base, i)] && 0 <= i < LISTS
    requires a != b + 16 && a != b + 24 && a != h + 24 && base + 6528 < a
    ensures InsertM(m, base, b, i)[a] == m[a]
  {
  }

  lemma {:induction false} InsertSameChain(m: Mem, k: Blocks, base: int, last: int, b: int, i: int, h: int)
    requires Tiles(k.size, base + 6528, last) && k.free <= k.size.Keys && last !in k.free
    requires b in k.free && 0 <= i < LISTS && h == m[Slot(base, i)] && (h == base || h in k.free)
    ensures SameChain(m, InsertM(m, base, b, i), k, base)
  {
    var m' := InsertM(m, base, b, i);
    forall c | c in k.size ensures m'[c + 8] == m[c + 8] && (c != base + 6528 ==> m'[c] == m[c]) {
      LinkWordHeader(k, base, last, b, b + 16, c);
      LinkWordHeader(k, base, last, b, b + 24, c);
      LinkWordHeader(k, base, last, h, h + 24, c);
      InsertSameAt(m, base, b, i, h, c + 8);
      if c != base + 6528 {
        InsertSameAt(m, base, b, i, h, c);
      }
    }
    forall u, a {:trigger Used(k, u), m'[a]} | Used(k, u) && u + 16 <= a < u + 16 + k.size[u] ensures m'[a] == m[a] {
      LinkWordPayload(k, base, last, b, b + 16, u);
      LinkWordPayload(k, base, last, b, b + 24, u);
      LinkWordPayload(k, base, last, h, h + 24, u);
      InsertSameAt(m, base, b, i, h, a);
    }
  }

  lemma {:induction false} InsertLinkAt(m: Mem, base: int, b: int, h: int, i: int, d: int)
    requires 0 <= i < LISTS && h == m[Slot(base, i)]
    requires Apart(base, b, d) && (h == base || (Apart(base, h, d) && Apart(base, h, b) && h != b))
    ensures var m' := InsertM(m, base, b, i);
      && m'[d + 16] == (if d == b then h else m[d + 16])
      && m'[d + 24] == (if d == h then b else if d == b then base else m[d + 24])
  {
  }

  lemma {:induction false} InsertSlotAt(m: Mem, base: int, b: int, h: int, i: int, j: int)
    requires 0 <= i < LISTS && 0 <= j < LISTS && h == m[Slot(base, i)]
    requires base + 6528 <= b && (h == base || base + 6528 <= h)
    ensures InsertM(m, base, b, i)[Slot(base, j)] == if j == i then b else m[Slot(base, j)]
  {
  }

  lemma {:induction false} InsertNodeLinks(m: Mem, size: map<int, int>, node: map<int, Node>, tab: seq<int>,
      base: int, first: int, last: int, b: int, i: int, h: int, node': map<int, Node>, d: int)
    requires Tiles(size, first, last) && first == base + 6528
    requires 0 <= i < |tab| == LISTS && h == tab[i] == m[Slot(base, i)] && (h != base ==> h in node)
    requires NodeLinks(m, node)
    requires forall e :: e in node ==> e in size && e != last
    requires b in size && b != last && b !in node && base !in node
    requires node' == InsertN(node, tab, base, b, i) && d in node'
    ensures InsertM(m, base, b, i)[d + 16] == node'[d].next
    ensures InsertM(m, base, b, i)[d + 24] == node'[d].prev
  {
    InsertEffect(node, tab, base, b, i, node', d);
    BlocksApart(size, base, first, last, b, d);
    if h != base {
      BlocksApart(size, base, first, last, h, b);
      BlocksApart(size, base, first, last, h, d);
    }
    InsertLinkAt(m, base, b, h, i, d);
  }

  lemma {:induction false} InsertHeads(m: Mem, tab: seq<int>, base: int, b: int, i: int)
    requires HeadLinks(m, tab, base) && 0 <= i < LISTS
    requires base + 6528 <= b && (tab[i] == base || base + 6528 <= tab[i])
    ensures HeadLinks(InsertM(m, base, b, i), tab[i := b], base)
  {
    assert m[Slot(base, i)] == tab[i];
    forall j {:trigger Slot(base, j)} | 0 <= j < LISTS ensures InsertM(m, base, b, i)[Slot(base, j)] == tab[i := b][j] {
      InsertSlotAt(m, base, b, tab[i], i, j);
      assert m[Slot(base, j)] == tab[j];
    }
  }

  lemma {:induction false} InsertLinks(m: Mem, k: Blocks, node: map<int, Node>, tab: seq<int>, base: int, first: int,
      last: int, b: int, i: int)
    requires Tiles(k.size, first, last) && first == base + 6528
    requires base !in node && NodeLinks(m, node) && HeadLinks(m, tab, base)
    requires forall d :: d in node ==> d in k.size && d != last
    requires b in k.size && b != last && b !in node && 0 <= i < LISTS && (tab[i] != base ==> tab[i] in node)
    ensures Links(InsertM(m, base, b, i), InsertN(node, tab, base, b, i), tab[i := b], base)
  {
    assert m[Slot(base, i)] == tab[i];
    InsertHeads(m, tab, base, b, i);
    hide InsertM, HeadLinks;
    var m', node' := InsertM(m, base, b, i), InsertN(node, tab, base, b, i);
    forall d | d in node' ensures m'[d + 16] == node'[d].next && m'[d + 24] == node'[d].prev {
      InsertNodeLinks(m, k.size, node, tab, base, first, last, b, i, tab[i], node', d);
    }
  }

  function RemoveM(m: Mem, base: int, b: int, i: int): (r: Mem)
  {
    var p, n := m[b + 24], m[b + 16];
    var m' := m[n + 24 := p][p + 16 := n];
    if m'[Slot(base, i)] == b then m'[Slot(base, i) := n] else m'
  }

  lemma {:induction false} RemoveSameAt(m: Mem, base: int, b: int, i: int, n: int, p: int, a: int)
    requires n == m[b + 16] && p == m[b + 24] && 0 <= i < LISTS
    requires a != n + 24 && a != p + 16 && base + 6528 < a
    ensures RemoveM(m, base, b, i)[a] == m[a]
  {
  }

  lemma {:induction false} RemoveSameChain(m: Mem, k: Blocks, base: int, last: int, b: int, i: int, n: int, p: int)
    requires Tiles(k.size, base + 6528, last) && k.free <= k.size.Keys && last !in k.free
    requires 0 <= i < LISTS && n == m[b + 16] && p == m[b + 24]
    requires (n == base || n in k.free) && (p == base || p in k.free)
    ensures SameChain(m, RemoveM(m, base, b, i), k, base)
  {
    var m' := RemoveM(m, base, b, i);
    forall c | c in k.size ensures m'[c + 8] == m[c + 8] && (c != base + 6528 ==> m'[c] == m[c]) {
      LinkWordHeader(k, base, last, n, n + 24, c);
      LinkWordHeader(k, base, last, p, p + 16, c);
      RemoveSameAt(m, base, b, i, n, p, c + 8);
      if c != base + 6528 {
        RemoveSameAt(m, base, b, i, n, p, c);
      }
    }
    forall u, a {:trigger Used(k, u), m'[a]} | Used(k, u) && u + 16 <= a < u + 16 + k.size[u] ensures m'[a] == m[a] {
      LinkWordPayload(k, base, last, n, n + 24, u);
      LinkWordPayload(k, base, last, p, p + 16, u);
      RemoveSameAt(m, base, b, i, n, p, a);
    }
  }

  lemma {:induction false} RemoveLinkAt(m: Mem, base: int, b: int, n: int, p: int, i: int, d: int)
    requires 0 <= i < LISTS && n == m[b + 16] && p == m[b + 24] && base + 6528 <= d
    requires n == base || Apart(base, n, d)
    requires p == base || Apart(base, p, d)
    ensures var m' := RemoveM(m, base, b, i);
      && m'[d + 16] == (if d == p then n else m[d + 16])
      && m'[d + 24] == (if d == n then p else m[d + 24])
  {
  }

  lemma {:induction false} RemoveSlotAt(m: Mem, base: int, b: int, n: int, p: int, i: int, j: int)
    requires 0 <= i < LISTS && 0 <= j < LISTS && n == m[b + 16] && p == m[b + 24]
    requires n == base || base + 6528 <= n
    requires p == base || base + 6528 <= p
    ensures RemoveM(m, base, b, i)[Slot(base, j)] ==
            if j == i && m[Slot(base, i)] == b then n else m[Slot(base, j)]
  {
  }

  lemma {:induction false} RemoveHeads(m: Mem, node: map<int, Node>, tab: seq<int>, base: int, b: int, n: int, p: int)
    requires HeadLinks(m, tab, base) && b in node && 0 <= node[b].cls < LISTS && n == m[b + 16] == node[b].next
      && p == m[b + 24]
    requires n == base || base + 6528 <= n
    requires p == base || base + 6528 <= p
    ensures HeadLinks(RemoveM(m, base, b, node[b].cls), RemoveT(node, tab, b), base)
  {
    var i := node[b].cls;
    assert m[Slot(base, i)] == tab[i];
    forall j {:trigger Slot(base, j)} | 0 <= j < LISTS
      ensures RemoveM(m, base, b, i)[Slot(base, j)] == RemoveT(node, tab, b)[j]
    {
      RemoveSlotAt(m, base, b, n, p, i, j);
      assert m[Slot(base, j)] == tab[j];
    }
  }

  lemma {:induction false} RemoveLinks(m: Mem, k: Blocks, node: map<int, Node>, tab: seq<int>, base: int, first: int,
      last: int, b: int)
    requires Tiles(k.size, first, last) && first == base + 6528
    requires Removable(node, tab, base, b) && Links(m, node, tab, base)
    requires forall d :: d in node ==> d in k.size && d != last
    ensures Links(RemoveM(m, base, b, node[b].cls), RemoveN(node, base, b), RemoveT(node, tab, b), base)
  {
    var n, p, i := node[b].next, node[b].prev, node[b].cls;
    RemoveHeads(m, node, tab, base, b, n, p);
    var m', node' := RemoveM(m, base, b, i), RemoveN(node, base, b);
    RemoveEffect(node, tab, base, b, node');
    forall d | d in node' ensures m'[d + 16] == node'[d].next && m'[d + 24] == node'[d].prev {
      if n != base {
        BlocksApart(k.size, base, first, last, n, d);
      }
      if p != base {
        BlocksApart(k.size, base, first, last, p, d);
      }
      RemoveLinkAt(m, base, b, n, p, i, d);
    }
  }

  // ----- bitmaps -----

  /** A second-level bit is set exactly for a non-empty list, and a first-level bit
      exactly for a row with a bit. */
  ghost predicate Maps(fl: nat, sl: seq<nat>, tab: seq<int>, nil: int)
    requires |tab| == LISTS
  {
    && |sl| == FL_INDEX_COUNT && fl < 0x200_0000
    && (forall f {:trigger sl[f]} :: 0 <= f < FL_INDEX_COUNT ==> sl[f] < 0x1_0000_0000)
    && (forall f, s {:trigger Bit(sl[f], s)} :: 0 <= f < FL_INDEX_COUNT && 0 <= s < SL_INDEX_COUNT ==>
          (Bit(sl[f], s) <==> tab[32 * f + s] != nil))
    && (forall f: nat {:trigger Bit(fl, f)} :: f < FL_INDEX_COUNT ==> (Bit(fl, f) <==> sl[f] != 0))
  }

  lemma {:induction false} SetBitPositive(w: nat, i: nat)
    ensures i < 32 && w < 0x1_0000_0000 ==> 0 < SetBit(w, i) < 0x1_0000_0000
    ensures i < 25 && w < 0x200_0000 ==> 0 < SetBit(w, i) < 0x200_0000
  {
    assert Pow2(32) == 0x1_0000_0000 && Pow2(25) == 0x200_0000 by { Pow2Values(); }
    if i < 32 && w < 0x1_0000_0000 {
      SetBitBelow(w, i, 32);
    }
    if i < 25 && w < 0x200_0000 {
      SetBitBelow(w, i, 25);
    }
  }

  lemma {:induction false} InsertMaps(fl: nat, sl: seq<nat>, tab: seq<int>, nil: int, b: int, f: nat, s: nat)
    requires |tab| == LISTS && Maps(fl, sl, tab, nil)
    requires f < FL_INDEX_COUNT && s < SL_INDEX_COUNT && b != nil
    ensures Maps(SetBit(fl, f), sl[f := SetBit(sl[f], s)], tab[32 * f + s := b], nil)
  {
    var fl', sl', tab' := SetBit(fl, f), sl[f := SetBit(sl[f], s)], tab[32 * f + s := b];
    SetBitPositive(fl, f);
    SetBitPositive(sl[f], s);
    forall g, t {:trigger Bit(sl'[g], t)} | 0 <= g < FL_INDEX_COUNT && 0 <= t < SL_INDEX_COUNT
      ensures Bit(sl'[g], t) <==> tab'[32 * g + t] != nil
    {
      SetBitSpec(sl[f], s, t);
      assert Bit(sl[g], t) <==> tab[32 * g + t] != nil;
    }
    forall g: nat {:trigger Bit(fl', g)} | g < FL_INDEX_COUNT
      ensures Bit(fl', g) <==> sl'[g] != 0
    {
      SetBitSpec(fl, f, g);
      assert Bit(fl, g) <==> sl[g] != 0;
    }
  }

  function ClearedRow(fl: nat, row: nat, f: nat): (r: nat)
  {
    if row == 0 then ClearBit(fl, f) else fl
  }

  lemma {:induction false} EmptyMaps(fl: nat, sl: seq<nat>, tab: seq<int>, nil: int, f: nat, s: nat)
    requires |tab| == LISTS && Maps(fl, sl, tab, nil)
    requires f < FL_INDEX_COUNT && s < SL_INDEX_COUNT
    ensures var row := ClearBit(sl[f], s);
      Maps(ClearedRow(fl, row, f), sl[f := row], tab[32 * f + s := nil], nil)
  {
    var row := ClearBit(sl[f], s);
    var fl', sl', tab' := ClearedRow(fl, row, f), sl[f := row], tab[32 * f + s := nil];
    forall g, t {:trigger Bit(sl'[g], t)} | 0 <= g < FL_INDEX_COUNT && 0 <= t < SL_INDEX_COUNT
      ensures Bit(sl'[g], t) <==> tab'[32 * g + t] != nil
    {
      ClearBitSpec(sl[f], s, t);
      assert Bit(sl[g], t) <==> tab[32 * g + t] != nil;
    }
    forall g: nat {:trigger Bit(fl', g)} | g < FL_INDEX_COUNT
      ensures Bit(fl', g) <==> sl'[g] != 0
    {
      ClearBitSpec(fl, f, g);
      assert Bit(fl, g) <==> sl[g] != 0;
      if g == f && row != 0 {
        assert sl[f] != 0;
      }
    }
  }

  lemma {:induction false} SameMaps(fl: nat, sl: seq<nat>, tab: seq<int>, nil: int, i: int, v: int)
    requires |tab| == LISTS && Maps(fl, sl, tab, nil)
    requires 0 <= i < LISTS && tab[i] != nil && v != nil
    ensures Maps(fl, sl, tab[i := v], nil)
  {
  }

  // ----- search_suitable_block -----

  /** The lowest set bit at or above `s`, or none. */
  lemma {:induction false} MaskedBits(w: nat, s: nat, n: nat)
    requires w < Pow2(n)
    ensures MaskFrom(w, s) == 0 <==> forall j: nat :: s <= j < n ==> !Bit(w, j)
    ensures MaskFrom(w, s) != 0 ==>
      var j := Ffs(MaskFrom(w, s)); s <= j < n && Bit(w, j) && forall t: nat :: s <= t < j ==> !Bit(w, t)
  {
    var v := MaskFrom(w, s);
    ShrShl(w, s);
    ZeroIffNoBit(v, n);
    forall j: nat ensures Bit(v, j) <==> s <= j && Bit(w, j) { MaskFromSpec(w, s, j); }
    if v != 0 {
      FfsSpec(v);
      FfsBelow(v, n);
    }
  }

  lemma {:induction false} RowEmptyFrom(fl: nat, sl: seq<nat>, tab: seq<int>, nil: int, f: nat, s: nat)
    requires |tab| == LISTS && Maps(fl, sl, tab, nil) && f < FL_INDEX_COUNT && s < SL_INDEX_COUNT
    ensures MaskFrom(sl[f], s) == 0 ==> forall q :: 32 * f + s <= q < 32 * f + 32 ==> tab[q] == nil
    ensures MaskFrom(sl[f], s) != 0 ==>
      var t := Ffs(MaskFrom(sl[f], s));
      s <= t < SL_INDEX_COUNT && tab[32 * f + t] != nil && forall q :: 32 * f + s <= q < 32 * f + t ==> tab[q] == nil
  {
    assert Pow2(32) == 0x1_0000_0000 by { Pow2Values(); }
    MaskedBits(sl[f], s, 32);
    var top := if MaskFrom(sl[f], s) == 0 then 32 else Ffs(MaskFrom(sl[f], s));
    forall q | 32 * f + s <= q < 32 * f + top ensures tab[q] == nil {
      assert !Bit(sl[f], q - 32 * f);
    }
  }

  lemma {:induction false} RowsEmptyFrom(fl: nat, sl: seq<nat>, tab: seq<int>, nil: int, f: nat)
    requires |tab| == LISTS && Maps(fl, sl, tab, nil) && f <= FL_INDEX_COUNT
    ensures MaskFrom(fl, f) == 0 ==> forall q :: 32 * f <= q < LISTS ==> tab[q] == nil
    ensures MaskFrom(fl, f) != 0 ==>
      var g := Ffs(MaskFrom(fl, f));
      f <= g < FL_INDEX_COUNT && sl[g] != 0 && forall q :: 32 * f <= q < 32 * g ==> tab[q] == nil
  {
    assert Pow2(25) == 0x200_0000 by { Pow2Values(); }
    MaskedBits(fl, f, 25);
    var top := if MaskFrom(fl, f) == 0 then 25 else Ffs(MaskFrom(fl, f));
    forall q | 32 * f <= q < 32 * top ensures tab[q] == nil {
      var g, s := q / 32, q % 32;
      assert !Bit(fl, g);
      assert sl[g] == 0;
      ShrZero(s);
      assert !Bit(sl[g], s);
    }
  }
}
