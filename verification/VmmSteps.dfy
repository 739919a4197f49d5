/** The single changes that `map_page` and `unmap_page` make to the tree of tables, and
    what each does to every walk. */
module VmmSteps {
  import opened Wrappers
  import opened VmmState

  /** Every walk gives what it gave before. */
  ghost predicate Same(m: Memory, m': Memory, root: nat)
  {
    forall v: nat {:trigger Resolve(m', root, 4, v)} :: Resolve(m', root, 4, v) == Resolve(m, root, 4, v)
  }

  lemma {:induction false} SameTrans(m: Memory, m': Memory, m'': Memory, root: nat)
    requires Same(m, m', root) && Same(m', m'', root)
    ensures Same(m, m'', root)
  {
    forall v: nat {:trigger Resolve(m'', root, 4, v)} ensures Resolve(m'', root, 4, v) == Resolve(m, root, 4, v) {
      assert Resolve(m', root, 4, v) == Resolve(m, root, 4, v);
    }
  }

  /** The walk for v comes to entry i of table f. */
  ghost predicate Through(node: map<nat, Node>, f: nat, i: nat, v: nat)
    requires f in node && 1 <= node[f].level <= 4
  {
    node[f].prefix == Prefix(v, node[f].level) && Index(v, node[f].level) == i
  }

  lemma {:induction false} OtherWalk(m: Memory, m': Memory, root: nat, node: map<nat, Node>, f: nat, i: nat, v: nat)
    requires Tree(m, root, node) && f in node && OnlyAt(m, m', node, f, i) && !Through(node, f, i, v)
    ensures Resolve(m', root, 4, v) == Resolve(m, root, 4, v)
  {
    assert Prefix(v, 4) == 0;
    Avoids(m, m', node, f, i, root, v);
  }

  /** A changed entry that leads where it led, or is of the last level, keeps the tree. */
  ghost predicate SameShape(m: Memory, m': Memory, node: map<nat, Node>, f: nat, i: nat, e: Entry)
  {
    && f in node && i < 512 && 1 <= node[f].level && m' == Put(m, f, i, e)
    && (node[f].level > 1 ==>
         Inner(m[f][i], node[f].level) && Inner(e, node[f].level) && e.frame == m[f][i].frame
         && e.high == m[f][i].high)
  }

  lemma {:induction false} ShapeEntries(m: Memory, m': Memory, node: map<nat, Node>, f: nat, i: nat, e: Entry, g: nat,
      j: nat)
    requires SameShape(m, m', node, f, i, e) && j < 512
    ensures m'[g][j] == if g == f && j == i then e else m[g][j]
  {
  }

  lemma {:induction false} ShapeDown(m: Memory, m': Memory, node: map<nat, Node>, f: nat, i: nat, e: Entry)
    requires SameShape(m, m', node, f, i, e) && Downward(m, node)
    ensures Downward(m', node)
  {
    forall g, j {:trigger g in node, m'[g][j]} | g in node && 0 <= j < 512 && node[g].level > 1
      && Inner(m'[g][j], node[g].level)
      ensures Child(m'[g][j], node, node[g], j)
    {
      ShapeEntries(m, m', node, f, i, e, g, j);
      assert Child(m[g][j], node, node[g], j);
    }
  }

  lemma {:induction false} ShapeUp(m: Memory, m': Memory, node: map<nat, Node>, f: nat, i: nat, e: Entry)
    requires SameShape(m, m', node, f, i, e) && Upward(m, node) && forall h :: h in node ==> node[h].level >= 1
    ensures Upward(m', node)
  {
    forall h {:trigger h in node} | h in node && node[h].level < 4 ensures exists g :: Hangs(m', node, h, g) {
      var g :| Hangs(m, node, h, g);
      ShapeEntries(m, m', node, f, i, e, g, node[h].prefix % 512);
      assert Hangs(m', node, h, g);
    }
  }

  lemma {:induction false} ShapeTree(m: Memory, m': Memory, root: nat, node: map<nat, Node>, f: nat, i: nat, e: Entry)
    requires SameShape(m, m', node, f, i, e) && Tree(m, root, node) && LargeAligned(m, node)
    ensures Tree(m', root, node) && LargeAligned(m', node) && OnlyAt(m, m', node, f, i)
  {
    ShapeDown(m, m', node, f, i, e);
    ShapeUp(m, m', node, f, i, e);
    forall g, j {:trigger g in node, m'[g][j]} | g in node && 0 <= j < 512
      ensures m'[g][j] == if g == f && j == i then e else m[g][j]
    {
      ShapeEntries(m, m', node, f, i, e, g, j);
    }
  }

  // ----- `table[idx] |= user_bit` -----

  function WithUser(e: Entry, u: bv12): Entry { e.(low := e.low | u) }

  lemma {:induction false} UserInner(e: Entry, u: bv12, l: nat)
    requires u == 0 || u == USER
    ensures Inner(WithUser(e, u), l) == Inner(e, l)
  {
    assert (e.low | u) & 0x001 == e.low & 0x001 && (e.low | u) & 0x080 == e.low & 0x080;
  }

  /** A change of attribute bits in an entry that leads to a table changes no walk. */
  lemma {:induction false} Relabel(m: Memory, m': Memory, root: nat, node: map<nat, Node>, f: nat, i: nat, e: Entry)
    requires Tree(m, root, node) && LargeAligned(m, node) && SameShape(m, m', node, f, i, e) && node[f].level > 1
    ensures Tree(m', root, node) && LargeAligned(m', node) && Same(m, m', root)
  {
    ShapeTree(m, m', root, node, f, i, e);
    ShapeEntries(m, m', node, f, i, e, f, i);
    assert Child(m[f][i], node, node[f], i);
    hide Tree, LargeAligned, Resolve, OnlyAt, Child, Inner;
    forall v: nat {:trigger Resolve(m', root, 4, v)} ensures Resolve(m', root, 4, v) == Resolve(m, root, 4, v) {
      if Through(node, f, i, v) {
        UserWalk(m, m', root, node, f, i, v);
      } else {
        OtherWalk(m, m', root, node, f, i, v);
      }
    }
  }

  lemma {:induction false} UserWalk(m: Memory, m': Memory, root: nat, node: map<nat, Node>, f: nat, i: nat, v: nat)
    requires Tree(m, root, node) && Tree(m', root, node) && OnlyAt(m, m', node, f, i) && f in node && i < 512
      && node[f].level > 1
    requires Through(node, f, i, v) && Inner(m[f][i], node[f].level) && Inner(m'[f][i], node[f].level)
      && m'[f][i].frame == m[f][i].frame
    requires Child(m[f][i], node, node[f], i)
    ensures Resolve(m', root, 4, v) == Resolve(m, root, 4, v)
  {
    Passes(m, root, node, f, v);
    Passes(m', root, node, f, v);
    Avoids(m, m', node, f, i, m[f][i].frame, v);
  }

  // ----- hanging a new table -----

  function TableEntry(c: nat, u: bv12): Entry { Entry(PRESENT | WRITABLE | u, c, 0) }

  lemma {:induction false} TableBits(u: bv12)
    requires u == 0 || u == USER
    ensures (PRESENT | WRITABLE | u) & 0x001 != 0 && (PRESENT | WRITABLE | u) & 0x080 == 0
  {
  }

  /** A page that is not yet a table, filled with t, hung at an entry that leads nowhere. */
  ghost predicate Hung(m: Memory, m': Memory, node: map<nat, Node>, node': map<nat, Node>, f: nat, i: nat, c: nat,
      t: Table, u: bv12)
  {
    && f in node && i < 512 && node[f].level > 1 && !Inner(m[f][i], node[f].level)
    && c !in node && (u == 0 || u == USER)
    && m' == Put(m[c := t], f, i, TableEntry(c, u))
    && node' == node[c := Node(node[f].level - 1, 512 * node[f].prefix + i)]
    && (node[f].level == 2 || t == Zeroed())
  }

  lemma {:induction false} HungEntries(m: Memory, m': Memory, node: map<nat, Node>, node': map<nat, Node>, f: nat,
      i: nat, c: nat, t: Table, u: bv12, g: nat, j: nat)
    requires Hung(m, m', node, node', f, i, c, t, u) && g in node' && j < 512
    ensures m'[g][j] == if g == f && j == i then TableEntry(c, u) else if g == c then t[j] else m[g][j]
  {
  }

  lemma {:induction false} HungDown(m: Memory, m': Memory, node: map<nat, Node>, node': map<nat, Node>, f: nat,
      i: nat, c: nat, t: Table, u: bv12)
    requires Hung(m, m', node, node', f, i, c, t, u) && Downward(m, node)
    ensures Downward(m', node')
  {
    TableBits(u);
    forall g, j {:trigger g in node', m'[g][j]} | g in node' && 0 <= j < 512 && node'[g].level > 1
      && Inner(m'[g][j], node'[g].level)
      ensures Child(m'[g][j], node', node'[g], j)
    {
      HungEntries(m, m', node, node', f, i, c, t, u, g, j);
      if !(g == f && j == i) && g != c {
        assert Child(m[g][j], node, node[g], j);
      }
    }
  }

  lemma {:induction false} HungUp(m: Memory, m': Memory, root: nat, node: map<nat, Node>, node': map<nat, Node>,
      f: nat, i: nat, c: nat, t: Table, u: bv12)
    requires Hung(m, m', node, node', f, i, c, t, u) && Upward(m, node) && node[f].level <= 4
    ensures Upward(m', node')
  {
    TableBits(u);
    forall h {:trigger h in node'} | h in node' && node'[h].level < 4 ensures exists g :: Hangs(m', node', h, g) {
      if h == c {
        HungEntries(m, m', node, node', f, i, c, t, u, f, i);
        assert (512 * node[f].prefix + i) / 512 == node[f].prefix && (512 * node[f].prefix + i) % 512 == i;
        assert Hangs(m', node', c, f);
      } else {
        var g :| Hangs(m, node, h, g);
        HungEntries(m, m', node, node', f, i, c, t, u, g, node[h].prefix % 512);
        assert Hangs(m', node', h, g);
      }
    }
  }

  /** The place was free: no table of the tree was reached through that entry. */
  lemma {:induction false} PlaceFree(m: Memory, node: map<nat, Node>, f: nat, i: nat, h: nat)
    requires Upward(m, node) && Single(node) && f in node && h in node && i < 512 && 1 < node[f].level <= 4
      && !Inner(m[f][i], node[f].level)
    ensures node[h] != Node(node[f].level - 1, 512 * node[f].prefix + i)
  {
    assert (512 * node[f].prefix + i) / 512 == node[f].prefix && (512 * node[f].prefix + i) % 512 == i;
  }

  lemma {:induction false} HungSingle(m: Memory, m': Memory, node: map<nat, Node>, node': map<nat, Node>, f: nat,
      i: nat, c: nat, t: Table, u: bv12)
    requires Hung(m, m', node, node', f, i, c, t, u) && Upward(m, node) && Single(node) && node[f].level <= 4
    ensures Single(node')
  {
    forall h | h in node ensures node[h] != node'[c] { PlaceFree(m, node, f, i, h); }
  }

  lemma {:induction false} HungAligned(m: Memory, m': Memory, node: map<nat, Node>, node': map<nat, Node>, f: nat,
      i: nat, c: nat, t: Table, u: bv12)
    requires Hung(m, m', node, node', f, i, c, t, u) && LargeAligned(m, node)
    ensures LargeAligned(m', node')
  {
    TableBits(u);
    forall g, j {:trigger g in node', m'[g][j]} | g in node' && 0 <= j < 512 && node'[g].level == 2
      && Present(m'[g][j]) && Large(m'[g][j])
      ensures m'[g][j].frame % 512 == 0
    {
      HungEntries(m, m', node, node', f, i, c, t, u, g, j);
    }
  }

  lemma {:induction false} HungTree(m: Memory, m': Memory, root: nat, node: map<nat, Node>, node': map<nat, Node>,
      f: nat, i: nat, c: nat, t: Table, u: bv12)
    requires Tree(m, root, node) && LargeAligned(m, node) && Hung(m, m', node, node', f, i, c, t, u)
    ensures Tree(m', root, node') && LargeAligned(m', node') && OnlyAt(m, m', node, f, i)
  {
    HungDown(m, m', node, node', f, i, c, t, u);
    HungUp(m, m', root, node, node', f, i, c, t, u);
    HungSingle(m, m', node, node', f, i, c, t, u);
    HungAligned(m, m', node, node', f, i, c, t, u);
    hide Upward, Downward, LargeAligned, Single;
    forall g, j {:trigger g in node, m'[g][j]} | g in node && 0 <= j < 512 && !(g == f && j == i)
      ensures m'[g][j] == m[g][j] {
      HungEntries(m, m', node, node', f, i, c, t, u, g, j);
    }
  }

  /** A walk that comes to the new entry goes on in the new table. */
  lemma {:induction false} HungWalk(m: Memory, m': Memory, root: nat, node: map<nat, Node>, node': map<nat, Node>,
      f: nat, i: nat, c: nat, t: Table, u: bv12, v: nat)
    requires Tree(m, root, node) && LargeAligned(m, node) && Hung(m, m', node, node', f, i, c, t, u)
      && Through(node, f, i, v)
    ensures Resolve(m, root, 4, v) == Resolve(m, f, node[f].level, v)
    ensures Resolve(m', root, 4, v) == Resolve(m', c, node[f].level - 1, v) && m'[c] == t
  {
    HungTree(m, m', root, node, node', f, i, c, t, u);
    Passes(m, root, node, f, v);
    Passes(m', root, node', f, v);
    HungEntries(m, m', node, node', f, i, c, t, u, f, i);
    TableBits(u);
  }

  /** A new empty table changes no walk. */
  lemma {:induction false} HangEmpty(m: Memory, m': Memory, root: nat, node: map<nat, Node>, node': map<nat, Node>,
      f: nat, i: nat, c: nat, u: bv12)
    requires Tree(m, root, node) && LargeAligned(m, node) && Hung(m, m', node, node', f, i, c, Zeroed(), u)
      && !Present(m[f][i])
    ensures Tree(m', root, node') && LargeAligned(m', node') && Same(m, m', root)
  {
    HungTree(m, m', root, node, node', f, i, c, Zeroed(), u);
    hide Tree, LargeAligned, OnlyAt, Hung;
    forall v: nat {:trigger Resolve(m', root, 4, v)} ensures Resolve(m', root, 4, v) == Resolve(m, root, 4, v) {
      if Through(node, f, i, v) {
        HungWalk(m, m', root, node, node', f, i, c, Zeroed(), u, v);
      } else {
        OtherWalk(m, m', root, node, f, i, v);
      }
    }
  }

  // ----- splitting a 2 MiB mapping -----

  /** The table that `map_page` fills from the entry of a 2 MiB mapping. */
  function Pieces(e: Entry, u: bv12): (t: Table)
    ensures forall k :: 0 <= k < 512 ==> (t[k].frame == e.frame + k <==> e.frame % 512 == 0)
  {
    seq(512, (k: nat) => Entry((e.low & 0xF7F) | u, e.frame - e.frame % 512 + k, 0))
  }

  /** A piece maps to the frame that the whole mapped to. The user bit is added and the
      bits above 51 are lost. */
  ghost predicate Piece(was: Option<Leaf>, now: Option<Leaf>, u: bv12)
  {
    match was
    case None => now.None?
    case Some(leaf) => now == Some(Leaf(leaf.frame, leaf.low | u, 0, false))
  }

  /** Splitting changes no translation: pages outside are untouched, pages inside keep
      their frames. */
  ghost predicate SplitInto(m: Memory, m': Memory, root: nat, p: nat, u: bv12)
  {
    forall v: nat {:trigger Resolve(m', root, 4, v)} ::
      if Prefix(v, 1) == p then Piece(Resolve(m, root, 4, v), Resolve(m', root, 4, v), u)
      else Resolve(m', root, 4, v) == Resolve(m, root, 4, v)
  }

  lemma {:induction false} PieceBits(x: bv12, u: bv12)
    requires u == 0 || u == USER
    ensures ((x & 0xF7F) | u) & 0x001 == x & 0x001
  {
  }

  lemma {:induction false} SplitLarge(m: Memory, m': Memory, root: nat, node: map<nat, Node>, node': map<nat, Node>,
      f: nat, i: nat, c: nat, u: bv12)
    requires Tree(m, root, node) && LargeAligned(m, node) && f in node && i < 512 && node[f].level == 2
      && Large(m[f][i])
    requires Hung(m, m', node, node', f, i, c, Pieces(m[f][i], u), u)
    ensures Tree(m', root, node') && LargeAligned(m', node') && SplitInto(m, m', root, 512 * node[f].prefix + i, u)
  {
    var e := m[f][i];
    var t := Pieces(e, u);
    var p := 512 * node[f].prefix + i;
    HungTree(m, m', root, node, node', f, i, c, t, u);
    hide Tree, LargeAligned, Resolve, OnlyAt, Hung, Piece, Pieces;
    forall v: nat {:trigger Resolve(m', root, 4, v)}
      ensures if Prefix(v, 1) == p then Piece(Resolve(m, root, 4, v), Resolve(m', root, 4, v), u)
              else Resolve(m', root, 4, v) == Resolve(m, root, 4, v)
    {
      SameDigits(node[f].prefix, i, v);
      if Through(node, f, i, v) {
        PieceWalk(m, m', root, node, node', f, i, c, u, v);
      } else {
        OtherWalk(m, m', root, node, f, i, v);
      }
    }
  }

  lemma {:induction false} PieceWalk(m: Memory, m': Memory, root: nat, node: map<nat, Node>, node': map<nat, Node>,
      f: nat, i: nat, c: nat, u: bv12, v: nat)
    requires Tree(m, root, node) && LargeAligned(m, node) && f in node && i < 512 && node[f].level == 2
      && Large(m[f][i])
    requires Hung(m, m', node, node', f, i, c, Pieces(m[f][i], u), u) && Through(node, f, i, v)
    ensures Piece(Resolve(m, root, 4, v), Resolve(m', root, 4, v), u)
  {
    var e := m[f][i];
    HungWalk(m, m', root, node, node', f, i, c, Pieces(e, u), u, v);
    assert Present(e) ==> e.frame % 512 == 0;
    hide Tree, LargeAligned, Hung;
    PieceBits(e.low, u);
  }

  lemma {:induction false} SameDigits(p: nat, i: nat, v: nat)
    requires i < 512
    ensures Prefix(v, 1) == 512 * p + i <==> Prefix(v, 2) == p && Index(v, 2) == i
  {
  }

  // ----- writing a last-level entry -----

  lemma {:induction false} SetLeaf(m: Memory, m': Memory, root: nat, node: map<nat, Node>, f: nat, i: nat, e: Entry)
    requires Tree(m, root, node) && LargeAligned(m, node) && f in node && i < 512 && node[f].level == 1
      && m' == Put(m, f, i, e)
    ensures Tree(m', root, node) && LargeAligned(m', node)
    ensures LeafSet(m, m', root, 512 * node[f].prefix + i, if Present(e)
      then Some(Leaf(e.frame, e.low, e.high, false)) else None)
  {
    ShapeTree(m, m', root, node, f, i, e);
    ShapeEntries(m, m', node, f, i, e, f, i);
    hide Tree, LargeAligned, Resolve, OnlyAt;
    forall v: nat {:trigger Resolve(m', root, 4, v)}
      ensures if Page(v) == 512 * node[f].prefix + i
        then Resolve(m', root, 4, v) == (if Present(e) then Some(Leaf(e.frame, e.low, e.high, false)) else None)
              else Resolve(m', root, 4, v) == Resolve(m, root, 4, v)
    {
      LastDigits(node[f].prefix, i, v);
      if Through(node, f, i, v) {
        LeafWalk(m', root, node, f, i, v);
      } else {
        OtherWalk(m, m', root, node, f, i, v);
      }
    }
  }

  lemma {:induction false} LeafWalk(m: Memory, root: nat, node: map<nat, Node>, f: nat, i: nat, v: nat)
    requires Tree(m, root, node) && f in node && i < 512 && node[f].level == 1 && Through(node, f, i, v)
    ensures Resolve(m, root, 4, v) == var e := m[f][i];
      if Present(e) then Some(Leaf(e.frame, e.low, e.high, false)) else None
  {
    Passes(m, root, node, f, v);
  }

  lemma {:induction false} LastDigits(p: nat, i: nat, v: nat)
    requires i < 512
    ensures Page(v) == 512 * p + i <==> Prefix(v, 1) == p && Index(v, 1) == i
  {
  }

  /** Page p now maps to r and every other page is as before. */
  ghost predicate LeafSet(m: Memory, m': Memory, root: nat, p: nat, r: Option<Leaf>)
  {
    forall v: nat {:trigger Resolve(m', root, 4, v)} ::
      Resolve(m', root, 4, v) == if Page(v) == p then r else Resolve(m, root, 4, v)
  }
}
