/** Clearing an entry in any table of the tree. */
module VmmClear {
  import opened Shifts
  import opened Wrappers
  import opened VmmState
  import opened VmmSteps

  /** Place n is place top or lies below it. Pages are places of level 0, and 2 MiB ranges
      are places of level 1. */
  predicate Under(n: Node, top: Node)
    decreases top.level - n.level
  {
    n == top || (n.level < top.level && Under(Node(n.level + 1, n.prefix / 512), top))
  }

  /** The place that entry i of a table leads to. */
  function Slot(n: Node, i: nat): Node
    requires n.level >= 1
  {
    Node(n.level - 1, 512 * n.prefix + i)
  }

  /** Walks through entry i of table f end there, and all others are as they were. */
  ghost predicate Cleared(m: Memory, m': Memory, root: nat, node: map<nat, Node>, f: nat, i: nat)
    requires f in node && 1 <= node[f].level <= 4
  {
    forall w: nat {:trigger Resolve(m', root, 4, w)} ::
      Resolve(m', root, 4, w) == if Through(node, f, i, w) then None else Resolve(m, root, 4, w)
  }

  /** The walk for w comes to the tables above the changed entry as before. */
  lemma {:induction false} PassesAbove(m: Memory, m': Memory, root: nat, node: map<nat, Node>, f: nat, i: nat, h: nat,
      w: nat)
    requires Tree(m, root, node) && f in node && OnlyAt(m, m', node, f, i) && h in node
    requires node[f].level <= node[h].level <= 4 && node[h].prefix == Prefix(w, node[h].level)
    ensures Resolve(m', root, 4, w) == Resolve(m', h, node[h].level, w)
    decreases 4 - node[h].level
  {
    var l := node[h].level;
    if l == 4 {
      assert node[h] == node[root];
    } else {
      var g :| Hangs(m, node, h, g);
      assert node[h].prefix / 512 == Prefix(w, l + 1) && node[h].prefix % 512 == Index(w, l + 1);
      assert m'[g][node[h].prefix % 512] == m[g][node[h].prefix % 512];
      PassesAbove(m, m', root, node, f, i, g, w);
    }
  }

  lemma {:induction false} ClearEntries(m: Memory, m': Memory, node: map<nat, Node>, f: nat, i: nat)
    requires i < 512 && m' == Put(m, f, i, EMPTY)
    ensures OnlyAt(m, m', node, f, i) && m'[f][i] == EMPTY
  {
  }

  /** Clearing an entry of a table of any level. */
  lemma {:induction false} Clears(m: Memory, m': Memory, root: nat, node: map<nat, Node>, f: nat, i: nat)
    requires Tree(m, root, node) && f in node && i < 512 && 1 <= node[f].level <= 4 && m' == Put(m, f, i, EMPTY)
    ensures Cleared(m, m', root, node, f, i)
  {
    ClearEntries(m, m', node, f, i);
    hide Tree, OnlyAt, Prefix, Index;
    forall w: nat {:trigger Resolve(m', root, 4, w)}
      ensures Resolve(m', root, 4, w) == if Through(node, f, i, w) then None else Resolve(m, root, 4, w)
    {
      if Through(node, f, i, w) {
        PassesAbove(m, m', root, node, f, i, f, w);
      } else {
        OtherWalk(m, m', root, node, f, i, w);
      }
    }
  }

  // ----- the tables that are left -----

  /** The tables that do not hang below the cleared entry. */
  function Left(node: map<nat, Node>, top: Node): map<nat, Node>
  {
    map h | h in node && !Under(node[h], top) :: node[h]
  }

  lemma {:induction false} LeftDown(m: Memory, m': Memory, node: map<nat, Node>, f: nat, i: nat)
    requires Downward(m, node) && Single(node) && f in node && i < 512 && m' == Put(m, f, i, EMPTY)
    ensures Downward(m', Left(node, Slot(node[f], i)))
  {
    var top := Slot(node[f], i);
    var node' := Left(node, top);
    ClearEntries(m, m', node, f, i);
    forall g, j {:trigger g in node', m'[g][j]} | g in node' && 0 <= j < 512 && node'[g].level > 1
      && Inner(m'[g][j], node'[g].level)
      ensures Child(m'[g][j], node', node'[g], j)
    {
      assert !(g == f && j == i);
      assert m'[g][j] == m[g][j];
      assert Child(m[g][j], node, node[g], j);
      var n := Slot(node[g], j);
      assert n.prefix / 512 == node[g].prefix && n.prefix % 512 == j;
      NotUnder(node, f, i, g, j);
    }
  }

  /** An entry outside leads outside. */
  lemma {:induction false} NotUnder(node: map<nat, Node>, f: nat, i: nat, g: nat, j: nat)
    requires Single(node) && f in node && g in node && i < 512 && j < 512 && node[f].level >= 1 && node[g].level > 1
    requires !Under(node[g], Slot(node[f], i)) && !(g == f && j == i)
    ensures !Under(Slot(node[g], j), Slot(node[f], i))
  {
    var n := Slot(node[g], j);
    assert n.prefix / 512 == node[g].prefix && n.prefix % 512 == j;
    assert Slot(node[f], i).prefix / 512 == node[f].prefix && Slot(node[f], i).prefix % 512 == i;
    assert Node(n.level + 1, n.prefix / 512) == node[g];
  }

  lemma {:induction false} LeftUp(m: Memory, m': Memory, node: map<nat, Node>, f: nat, i: nat)
    requires Downward(m, node) && Upward(m, node) && Single(node) && f in node && i < 512 && m' == Put(m, f, i, EMPTY)
    ensures Upward(m', Left(node, Slot(node[f], i)))
  {
    var top := Slot(node[f], i);
    var node' := Left(node, top);
    ClearEntries(m, m', node, f, i);
    forall h {:trigger h in node'} | h in node' && node'[h].level < 4 ensures exists g :: Hangs(m', node', h, g) {
      var g :| Hangs(m, node, h, g);
      var j := node[h].prefix % 512;
      assert Slot(node[g], j) == node[h];
      assert !(g == f && j == i);
      assert !Under(node[g], top);
      assert Hangs(m', node', h, g);
    }
  }

  /** Without the tables below the entry, the tables are a tree again. */
  lemma {:induction false} LeftTree(m: Memory, m': Memory, root: nat, node: map<nat, Node>, f: nat, i: nat)
    requires Tree(m, root, node) && LargeAligned(m, node) && f in node && i < 512 && m' == Put(m, f, i, EMPTY)
    ensures Tree(m', root, Left(node, Slot(node[f], i))) && LargeAligned(m', Left(node, Slot(node[f], i)))
  {
    var node' := Left(node, Slot(node[f], i));
    LeftDown(m, m', node, f, i);
    LeftUp(m, m', node, f, i);
    ClearEntries(m, m', node, f, i);
    hide Downward, Upward;
    forall g, j {:trigger g in node', m'[g][j]} | g in node' && 0 <= j < 512 && node'[g].level == 2
      && Present(m'[g][j]) && Large(m'[g][j])
      ensures m'[g][j].frame % 512 == 0
    {
      assert m'[g][j] == m[g][j];
    }
  }

  // ----- addresses below a place -----

  /** The prefix of an address lies under a place exactly if the place is on its walk. */
  lemma {:induction false} UnderPrefix(w: nat, l: nat, top: Node)
    requires l <= top.level <= 4
    ensures Under(Node(l, Prefix(w, l)), top) <==> Prefix(w, top.level) == top.prefix
    decreases top.level - l
  {
    if l < top.level {
      assert Prefix(w, l) / 512 == Prefix(w, l + 1);
      UnderPrefix(w, l + 1, top);
    }
  }

  lemma {:induction false} UnderThrough(node: map<nat, Node>, f: nat, i: nat, w: nat)
    requires f in node && 1 <= node[f].level <= 4 && i < 512
    ensures Through(node, f, i, w) <==> Under(Node(0, Page(w)), Slot(node[f], i))
    ensures node[f].level >= 2 ==> (Through(node, f, i, w) <==> Under(Node(1, Prefix(w, 1)), Slot(node[f], i)))
    ensures node[f].level == 1 ==> !Under(Node(1, Prefix(w, 1)), Slot(node[f], i))
  {
    var l := node[f].level;
    var top := Slot(node[f], i);
    assert Prefix(w, l - 1) == 512 * Prefix(w, l) + Index(w, l);
    UnderPrefix(w, 0, top);
    if l >= 2 {
      UnderPrefix(w, 1, top);
    }
  }

  // ----- the other page of a pair -----

  /** The address with bit 12 flipped. */
  function Flipped(v: nat): nat
  {
    if Shr(v, 12) % 2 == 0 then v + 4096 else if v >= 4096 then v - 4096 else 0
  }

  lemma {:induction false} FlipsBit(v: nat)
    ensures Shr(Flipped(v), 12) % 2 != Shr(v, 12) % 2 && Shr(Flipped(v), 13) == Shr(v, 13)
  {
    TwelveBits(v);
    TwelveBits(Flipped(v));
    ShrShr(v, 12, 1);
    ShrShr(Flipped(v), 12, 1);
    hide Shr;
    OneBit(Shr(v, 12));
    OneBit(Shr(Flipped(v), 12));
  }

  lemma {:induction false} OneBit(a: nat)
    ensures Shr(a, 1) == a / 2
  {
    assert Shr(a, 1) == Shr(a / 2, 0);
  }

  lemma {:induction false} FlipsIndex(v: nat, l: nat)
    requires 1 <= l <= 4
    ensures Index(Flipped(v), l) == Index(v, l) <==> l != 1
  {
    hide Shr, Flipped;
    FlipsBit(v);
    if l == 1 {
      assert Index(v, 1) % 2 == Shr(v, 12) % 2 && Index(Flipped(v), 1) % 2 == Shr(Flipped(v), 12) % 2;
    } else {
      ShrShr(v, 13, 9 * l - 10);
      ShrShr(Flipped(v), 13, 9 * l - 10);
    }
  }

  lemma {:induction false} FlipsPrefix(v: nat, l: nat)
    requires 1 <= l <= 4
    ensures Prefix(Flipped(v), l) == Prefix(v, l)
    decreases 4 - l
  {
    hide Flipped, Index;
    if l < 4 {
      FlipsIndex(v, l + 1);
      FlipsPrefix(v, l + 1);
    }
  }

  /** Another page that the same tables lead to. */
  lemma {:induction false} Flips(v: nat)
    ensures Page(Flipped(v)) != Page(v)
    ensures forall l :: 1 <= l <= 4 ==> Prefix(Flipped(v), l) == Prefix(v, l)
    ensures forall l :: 2 <= l <= 4 ==> Index(Flipped(v), l) == Index(v, l)
  {
    hide Flipped, Index;
    forall l | 1 <= l <= 4 ensures Prefix(Flipped(v), l) == Prefix(v, l)
      && (Index(Flipped(v), l) == Index(v, l) <==> l != 1) {
      FlipsPrefix(v, l);
      FlipsIndex(v, l);
    }
    assert Prefix(v, 0) == 512 * Prefix(v, 1) + Index(v, 1);
    assert Prefix(Flipped(v), 0) == 512 * Prefix(Flipped(v), 1) + Index(Flipped(v), 1);
  }

  lemma {:induction false} TwelveBits(v: nat)
    ensures Shr(v, 12) == v / 4096
  {
    ShrShr(v, 3, 9);
    NineMore(v, 3);
    assert Shr(v, 3) == Shr(v / 2, 2) == Shr(v / 2 / 2, 1) == Shr(v / 2 / 2 / 2, 0);
  }
}
