/** What a walk permits: an access needs its bit in every entry on the way. */
module VmmRights {
  import opened Wrappers
  import opened VmmState
  import opened VmmSteps

  predicate Has(e: Entry, bit: bv12) { e.low & bit != 0 }

  /** Every entry on the walk for v has the bit, the last one included. */
  predicate Grants(m: Memory, f: int, l: nat, v: nat, bit: bv12)
    requires 1 <= l <= 4
    decreases l
  {
    var e := m[f][Index(v, l)];
    Present(e) && Has(e, bit) && (l == 1 || (l == 2 && Large(e)) || Grants(m, e.frame, l - 1, v, bit))
  }

  /** The entries that lead to tables on the walk for v have the bit, as far as there are
      tables. */
  predicate Allows(m: Memory, f: int, l: nat, v: nat, bit: bv12)
    requires 1 <= l <= 4
    decreases l
  {
    var e := m[f][Index(v, l)];
    l == 1 || !Inner(e, l) || (Has(e, bit) && Allows(m, e.frame, l - 1, v, bit))
  }

  /** The walk for v leads through tables down to level k, and those entries have the bit. */
  predicate Open(m: Memory, f: int, l: nat, v: nat, k: nat, bit: bv12)
    requires 1 <= l <= 4
    decreases l
  {
    l <= k || (l > 1 && Inner(m[f][Index(v, l)], l) && Has(m[f][Index(v, l)], bit)
               && Open(m, m[f][Index(v, l)].frame, l - 1, v, k, bit))
  }

  // ----- along a walk -----

  /** Permission is permission down to a table of the walk, and from there on. */
  lemma {:induction false} RightsPass(m: Memory, root: nat, node: map<nat, Node>, f: nat, g: nat, v: nat, bit: bv12)
    requires Tree(m, root, node) && f in node && node[f].prefix == Prefix(v, node[f].level)
    requires g in node && node[g].prefix == Prefix(v, node[g].level) && node[f].level <= node[g].level
    ensures Grants(m, g, node[g].level, v, bit) <==>
      Open(m, g, node[g].level, v, node[f].level, bit) && Grants(m, f, node[f].level, v, bit)
    ensures Allows(m, g, node[g].level, v, bit) <==>
      Open(m, g, node[g].level, v, node[f].level, bit) && Allows(m, f, node[f].level, v, bit)
    decreases node[g].level
  {
    var l := node[g].level;
    if l == node[f].level {
      assert g == f;
    } else {
      var e := m[g][Index(v, l)];
      OnTheWay(m, root, node, f, g, v);
      assert Child(e, node, node[g], Index(v, l));
      RightsPass(m, root, node, f, e.frame, v, bit);
    }
  }

  /** Above a table of the walk, the entries lead on. */
  lemma {:induction false} OnTheWay(m: Memory, root: nat, node: map<nat, Node>, f: nat, g: nat, v: nat)
    requires Tree(m, root, node) && f in node && node[f].prefix == Prefix(v, node[f].level)
    requires g in node && node[g].prefix == Prefix(v, node[g].level) && node[f].level < node[g].level
    ensures Inner(m[g][Index(v, node[g].level)], node[g].level)
    decreases node[g].level - node[f].level
  {
    var h :| Hangs(m, node, f, h);
    assert node[f].prefix / 512 == Prefix(v, node[f].level + 1) && node[f].prefix % 512 == Index(v, node[f].level + 1);
    if node[h].level == node[g].level {
      assert h == g;
    } else {
      OnTheWay(m, root, node, h, g, v);
    }
  }

  /** One table further down. */
  lemma {:induction false} OpenNext(m: Memory, root: nat, node: map<nat, Node>, f: nat, g: nat, v: nat, bit: bv12)
    requires Tree(m, root, node) && f in node && node[f].prefix == Prefix(v, node[f].level) && node[f].level > 1
    requires g in node && node[g].prefix == Prefix(v, node[g].level) && node[f].level <= node[g].level
    requires Open(m, g, node[g].level, v, node[f].level, bit)
    requires Inner(m[f][Index(v, node[f].level)], node[f].level) && Has(m[f][Index(v, node[f].level)], bit)
    ensures Open(m, g, node[g].level, v, node[f].level - 1, bit)
    decreases node[g].level
  {
    var l := node[g].level;
    if l == node[f].level {
      assert g == f;
    } else {
      var e := m[g][Index(v, l)];
      assert Child(e, node, node[g], Index(v, l));
      OpenNext(m, root, node, f, e.frame, v, bit);
    }
  }

  predicate KeepsBits(e: Entry, e': Entry)
  {
    (Has(e, USER) ==> Has(e', USER)) && (Has(e, WRITABLE) ==> Has(e', WRITABLE))
  }

  /** No entry that leads to a table loses one of these bits or leads elsewhere. */
  ghost predicate More(m: Memory, m': Memory, node: map<nat, Node>)
  {
    forall g, j {:trigger g in node, m'[g][j]} :: g in node && 0 <= j < 512 && Inner(m[g][j], node[g].level) ==>
      Inner(m'[g][j], node[g].level) && m'[g][j].frame == m[g][j].frame && KeepsBits(m[g][j], m'[g][j])
  }

  lemma {:induction false} OpenKept(m: Memory, m': Memory, node: map<nat, Node>, g: nat, v: nat, k: nat, bit: bv12)
    requires Downward(m, node) && More(m, m', node) && g in node && Open(m, g, node[g].level, v, k, bit)
    requires bit == USER || bit == WRITABLE
    ensures Open(m', g, node[g].level, v, k, bit)
    decreases node[g].level
  {
    hide Has, Inner, More, Index;
    var l := node[g].level;
    if l > k {
      var e := m[g][Index(v, l)];
      assert Child(e, node, node[g], Index(v, l));
      MoreAt(m, m', node, g, Index(v, l), bit);
      OpenKept(m, m', node, e.frame, v, k, bit);
    }
  }

  lemma {:induction false} MoreAt(m: Memory, m': Memory, node: map<nat, Node>, g: nat, j: nat, bit: bv12)
    requires More(m, m', node) && g in node && j < 512 && Inner(m[g][j], node[g].level)
      && (bit == USER || bit == WRITABLE)
    ensures Inner(m'[g][j], node[g].level) && m'[g][j].frame == m[g][j].frame
    ensures Has(m[g][j], bit) ==> Has(m'[g][j], bit)
  {
    hide Inner, Has;
    assert m'[g][j].frame == m[g][j].frame;
  }

  // ----- the steps of `map_page` -----

  /** No access is lost for w. Write access is as it was, and so is user access unless the
      user bit is added. */
  ghost predicate RightsOk(m: Memory, m': Memory, root: nat, u: bv12, w: nat)
  {
    && (Grants(m', root, 4, w, WRITABLE) <==> Grants(m, root, 4, w, WRITABLE))
    && (Grants(m, root, 4, w, USER) ==> Grants(m', root, 4, w, USER))
    && (u == 0 ==> (Grants(m', root, 4, w, USER) <==> Grants(m, root, 4, w, USER)))
    && (Allows(m', root, 4, w, WRITABLE) <==> Allows(m, root, 4, w, WRITABLE))
  }

  ghost predicate Eased(m: Memory, m': Memory, root: nat, u: bv12)
  {
    forall w: nat {:trigger RightsOk(m, m', root, u, w)} :: RightsOk(m, m', root, u, w)
  }

  lemma {:induction false} EasedSame(m: Memory, root: nat, u: bv12)
    ensures Eased(m, m, root, u)
  {
  }

  lemma {:induction false} EasedTrans(m: Memory, m1: Memory, m2: Memory, root: nat, u: bv12)
    requires Eased(m, m1, root, u) && Eased(m1, m2, root, u)
    ensures Eased(m, m2, root, u)
  {
    hide Grants, Allows;
    forall w: nat {:trigger RightsOk(m, m2, root, u, w)} ensures RightsOk(m, m2, root, u, w) {
      assert RightsOk(m, m1, root, u, w) && RightsOk(m1, m2, root, u, w);
    }
  }

  lemma {:induction false} UserBits(e: Entry, u: bv12)
    requires u == 0 || u == USER
    ensures Has(WithUser(e, u), WRITABLE) <==> Has(e, WRITABLE)
    ensures Has(e, USER) ==> Has(WithUser(e, u), USER)
    ensures Has(WithUser(e, u), USER) <==> Has(e, USER) || u == USER
    ensures Large(WithUser(e, u)) == Large(e) && Present(WithUser(e, u)) == Present(e)
  {
    var x := e.low;
    assert (x | u) & 0x001 == x & 0x001 && (x | u) & 0x080 == x & 0x080 && (x | u) & 0x002 == x & 0x002;
  }

  /** `table[idx] |= user_bit`, seen from table g. */
  lemma {:induction false} RelabelRights(m: Memory, m': Memory, node: map<nat, Node>, f: nat, i: nat, u: bv12, g: nat,
      w: nat)
    requires Downward(m, node) && f in node && i < 512 && OnlyAt(m, m', node, f, i) && (u == 0 || u == USER)
    requires m'[f][i] == WithUser(m[f][i], u) && g in node
    ensures var l := node[g].level;
      && (Grants(m', g, l, w, WRITABLE) <==> Grants(m, g, l, w, WRITABLE))
      && (Grants(m, g, l, w, USER) ==> Grants(m', g, l, w, USER))
      && (u == 0 ==> (Grants(m', g, l, w, USER) <==> Grants(m, g, l, w, USER)))
      && (Allows(m', g, l, w, WRITABLE) <==> Allows(m, g, l, w, WRITABLE))
    decreases node[g].level
  {
    hide Has, OnlyAt, Large, Present, WithUser;
    var l := node[g].level;
    var e, e' := m[g][Index(w, l)], m'[g][Index(w, l)];
    EntryThere(m, m', node, f, i, u, g, Index(w, l));
    UserBits(e, u);
    if Inner(e, l) && l > 1 {
      assert Child(e, node, node[g], Index(w, l));
      RelabelRights(m, m', node, f, i, u, e.frame, w);
    }
  }

  lemma {:induction false} EntryThere(m: Memory, m': Memory, node: map<nat, Node>, f: nat, i: nat, u: bv12, g: nat,
      j: nat)
    requires OnlyAt(m, m', node, f, i) && g in node && j < 512 && i < 512 && m'[f][i] == WithUser(m[f][i], u)
    ensures m'[g][j] == m[g][j] || m'[g][j] == WithUser(m[g][j], u)
    ensures m'[g][j].frame == m[g][j].frame
  {
  }

  /** A new empty table, seen from table g. */
  lemma {:induction false} HangRights(m: Memory, m': Memory, node: map<nat, Node>, f: nat, i: nat, c: nat, u: bv12,
      g: nat, w: nat, bit: bv12)
    requires Downward(m, node) && f in node && i < 512 && OnlyAt(m, m', node, f, i) && g in node && node[f].level > 1
    requires !Present(m[f][i]) && m'[f][i] == TableEntry(c, u) && m'[c] == Zeroed() && (u == 0 || u == USER)
    ensures Grants(m', g, node[g].level, w, bit) <==> Grants(m, g, node[g].level, w, bit)
    ensures bit == WRITABLE ==> (Allows(m', g, node[g].level, w, bit) <==> Allows(m, g, node[g].level, w, bit))
    decreases node[g].level
  {
    hide Has, OnlyAt;
    var l := node[g].level;
    var e := m[g][Index(w, l)];
    if g == f && Index(w, l) == i {
      TableBits(u);
      TableWritable(c, u);
      EmptyTable(m', c, l - 1, w, bit);
    } else {
      SameEntry(m, m', node, f, i, g, Index(w, l));
      if Inner(e, l) && l > 1 {
        assert Child(e, node, node[g], Index(w, l));
        HangRights(m, m', node, f, i, c, u, e.frame, w, bit);
      }
    }
  }

  lemma {:induction false} SameEntry(m: Memory, m': Memory, node: map<nat, Node>, f: nat, i: nat, g: nat, j: nat)
    requires OnlyAt(m, m', node, f, i) && g in node && j < 512 && !(g == f && j == i)
    ensures m'[g][j] == m[g][j]
  {
  }

  lemma {:induction false} EmptyTable(m: Memory, c: nat, l: nat, w: nat, bit: bv12)
    requires 1 <= l <= 4 && m[c] == Zeroed()
    ensures !Grants(m, c, l, w, bit) && Allows(m, c, l, w, bit)
  {
    assert !Present(EMPTY);
  }

  lemma {:induction false} TableWritable(c: nat, u: bv12)
    requires u == 0 || u == USER
    ensures Has(TableEntry(c, u), WRITABLE) && (Has(TableEntry(c, u), USER) <==> u == USER)
    ensures Inner(TableEntry(c, u), 2) && Inner(TableEntry(c, u), 3) && Inner(TableEntry(c, u), 4)
  {
    TableBits(u);
    assert (PRESENT | WRITABLE | u) & WRITABLE != 0;
  }

  /** A changed entry that the walk does not come to. */
  lemma {:induction false} AvoidsRights(m: Memory, m': Memory, node: map<nat, Node>, f: nat, i: nat, g: nat, w: nat,
      bit: bv12)
    requires Downward(m, node) && f in node && OnlyAt(m, m', node, f, i)
    requires g in node && node[g].prefix == Prefix(w, node[g].level)
    requires node[g].level < node[f].level
             || !(node[f].prefix == Prefix(w, node[f].level) && Index(w, node[f].level) == i)
    ensures Grants(m', g, node[g].level, w, bit) <==> Grants(m, g, node[g].level, w, bit)
    ensures Allows(m', g, node[g].level, w, bit) <==> Allows(m, g, node[g].level, w, bit)
    decreases node[g].level
  {
    var l := node[g].level;
    var e := m[g][Index(w, l)];
    assert m'[g][Index(w, l)] == e;
    if Inner(e, l) && l > 1 {
      assert Child(e, node, node[g], Index(w, l));
      AvoidsRights(m, m', node, f, i, e.frame, w, bit);
    }
  }

  /** A change at the level of the table reached or below. */
  lemma {:induction false} OpenAbove(m: Memory, m': Memory, node: map<nat, Node>, f: nat, i: nat, g: nat, w: nat,
      k: nat,
      bit: bv12)
    requires Downward(m, node) && f in node && OnlyAt(m, m', node, f, i) && g in node && node[f].level <= k
    ensures Open(m', g, node[g].level, w, k, bit) <==> Open(m, g, node[g].level, w, k, bit)
    decreases node[g].level
  {
    var l := node[g].level;
    if l > k {
      var e := m[g][Index(w, l)];
      SameEntry(m, m', node, f, i, g, Index(w, l));
      if Inner(e, l) && l > 1 {
        assert Child(e, node, node[g], Index(w, l));
        OpenAbove(m, m', node, f, i, e.frame, w, k, bit);
      }
    }
  }

  // ----- writing the last entry -----

  lemma {:induction false} LeafRights(m: Memory, m': Memory, root: nat, node: map<nat, Node>, f: nat, i: nat, e: Entry,
      w: nat, bit: bv12)
    requires Tree(m, root, node) && Tree(m', root, node) && f in node && i < 512 && node[f].level == 1
    requires OnlyAt(m, m', node, f, i) && m'[f][i] == e
    ensures if Page(w) == 512 * node[f].prefix + i
      then Grants(m', root, 4, w, bit) <==> Present(e) && Has(e, bit) && Open(m, root, 4, w, 1, bit)
      else Grants(m', root, 4, w, bit) <==> Grants(m, root, 4, w, bit)
  {
    hide OnlyAt, Has, Index, Inner;
    LastDigits(node[f].prefix, i, w);
    assert Prefix(w, 4) == 0;
    if Through(node, f, i, w) {
      RightsPass(m', root, node, f, root, w, bit);
      OpenAbove(m, m', node, f, i, root, w, 1, bit);
    } else {
      AvoidsRights(m, m', node, f, i, root, w, bit);
    }
  }

  // ----- splitting -----

  lemma {:induction false} PieceRights(e: Entry, u: bv12, k: nat)
    requires k < 512 && (u == 0 || u == USER)
    ensures var p := Pieces(e, u)[k];
      && Present(p) == Present(e) && (Has(p, WRITABLE) <==> Has(e, WRITABLE)) && (u == USER ==> Has(p, USER))
  {
    var x := e.low;
    assert ((x & 0xF7F) | u) & 0x001 == x & 0x001 && ((x & 0xF7F) | u) & 0x002 == x & 0x002;
  }

  /** The pages of the range keep write access, and have user access exactly if it is asked
      for and the tables above allow it. */
  lemma {:induction false} SplitRights(m: Memory, m': Memory, root: nat, node: map<nat, Node>, node': map<nat, Node>,
      f: nat, i: nat, c: nat, u: bv12, w: nat)
    requires Tree(m, root, node) && Tree(m', root, node') && f in node && i < 512 && node[f].level == 2
    requires Large(m[f][i]) && Hung(m, m', node, node', f, i, c, Pieces(m[f][i], u), u)
      && Prefix(w, 1) == 512 * node[f].prefix + i
    ensures Grants(m', root, 4, w, WRITABLE) <==> Grants(m, root, 4, w, WRITABLE)
    ensures Grants(m', root, 4, w, USER) <==> u == USER && Present(m[f][i]) && Open(m, root, 4, w, 2, USER)
    ensures Open(m', root, 4, w, 1, WRITABLE) <==> Allows(m, root, 4, w, WRITABLE)
    ensures Open(m', root, 4, w, 1, USER) <==> u == USER && Open(m, root, 4, w, 2, USER)
  {
    hide Pieces, Has, Index, Open, Prefix, Large, Present;
    SplitRight(m, m', root, node, node', f, i, c, u, w, WRITABLE);
    SplitRight(m, m', root, node, node', f, i, c, u, w, USER);
    PieceRights(m[f][i], u, Index(w, 1));
    TableWritable(c, u);
  }

  lemma {:induction false} SplitRight(m: Memory, m': Memory, root: nat, node: map<nat, Node>, node': map<nat, Node>,
      f: nat, i: nat, c: nat, u: bv12, w: nat, bit: bv12)
    requires Tree(m, root, node) && Tree(m', root, node') && f in node && i < 512 && node[f].level == 2
    requires Large(m[f][i]) && Hung(m, m', node, node', f, i, c, Pieces(m[f][i], u), u)
      && Prefix(w, 1) == 512 * node[f].prefix + i
    ensures var e, p := m[f][i], Pieces(m[f][i], u)[Index(w, 1)];
      && (Grants(m, root, 4, w, bit) <==> Open(m, root, 4, w, 2, bit) && Present(e) && Has(e, bit))
      && (Grants(m', root, 4, w, bit) <==>
           Open(m, root, 4, w, 2, bit) && Has(TableEntry(c, u), bit) && Present(p) && Has(p, bit))
      && (Allows(m, root, 4, w, bit) <==> Open(m, root, 4, w, 2, bit))
      && (Open(m', root, 4, w, 1, bit) <==> Open(m, root, 4, w, 2, bit) && Has(TableEntry(c, u), bit))
  {
    SameDigits(node[f].prefix, i, w);
    HungEntries(m, m', node, node', f, i, c, Pieces(m[f][i], u), u, f, i);
    HungOnly(m, m', node, node', f, i, c, Pieces(m[f][i], u), u);
    hide Pieces, Has, OnlyAt, Hung;
    TableBits(u);
    TableWritable(c, u);
    assert Prefix(w, 4) == 0;
    RightsPass(m, root, node, f, root, w, bit);
    RightsPass(m', root, node', f, root, w, bit);
    RightsPass(m', root, node', c, root, w, bit);
    OpenAbove(m, m', node, f, i, root, w, 2, bit);
    OpenOne(m', root, node', f, c, w, bit);
  }

  lemma {:induction false} HungOnly(m: Memory, m': Memory, node: map<nat, Node>, node': map<nat, Node>, f: nat, i: nat,
      c: nat, t: Table, u: bv12)
    requires Hung(m, m', node, node', f, i, c, t, u)
    ensures OnlyAt(m, m', node, f, i) && m'[c] == t && c in node' && f in node' && node'[f] == node[f]
    ensures node'[c] == Node(node[f].level - 1, 512 * node[f].prefix + i)
  {
    forall g, j {:trigger g in node, m'[g][j]} | g in node && 0 <= j < 512 && !(g == f && j == i)
      ensures m'[g][j] == m[g][j] {
      HungEntries(m, m', node, node', f, i, c, t, u, g, j);
    }
  }

  /** The table below f is reached through the entry of f. */
  lemma {:induction false} OpenOne(m: Memory, root: nat, node: map<nat, Node>, f: nat, c: nat, w: nat, bit: bv12)
    requires Tree(m, root, node) && f in node && c in node && node[f].level == 2 && node[c].level == 1
    requires node[f].prefix == Prefix(w, 2) && node[c].prefix == Prefix(w, 1)
    ensures Open(m, root, 4, w, 1, bit) <==> Open(m, root, 4, w, 2, bit) && Has(m[f][Index(w, 2)], bit)
  {
    hide Has;
    assert Prefix(w, 4) == 0;
    RightsPass(m, root, node, c, root, w, bit);
    RightsPass(m, root, node, f, root, w, bit);
    OnTheWay(m, root, node, c, f, w);
    assert Allows(m, c, 1, w, bit);
  }

  // ----- other addresses on the same tables -----

  /** Addresses with the same indices above level k share the tables down to it. */
  lemma {:induction false} SameWalk(m: Memory, f: int, l: nat, v: nat, w: nat, k: nat, bit: bv12)
    requires 1 <= l <= 4 && 1 <= k && forall j :: k < j <= l ==> Index(w, j) == Index(v, j)
    ensures Open(m, f, l, w, k, bit) <==> Open(m, f, l, v, k, bit)
    ensures k == 1 ==> (Allows(m, f, l, w, bit) <==> Allows(m, f, l, v, bit))
    decreases l
  {
    hide Index, Has;
    var e := m[f][Index(v, l)];
    if l > k && Inner(e, l) {
      SameWalk(m, e.frame, l - 1, v, w, k, bit);
    }
  }

  /** The indices above level k are in the prefix. */
  lemma {:induction false} SamePrefix(v: nat, w: nat, k: nat, j: nat)
    requires k < j <= 4 && Prefix(w, k) == Prefix(v, k)
    ensures Index(w, j) == Index(v, j)
    decreases j - k
  {
    assert Prefix(w, k) / 512 == Prefix(w, k + 1) && Prefix(w, k) % 512 == Index(w, k + 1);
    assert Prefix(v, k) / 512 == Prefix(v, k + 1) && Prefix(v, k) % 512 == Index(v, k + 1);
    if k + 1 < j {
      SamePrefix(v, w, k + 1, j);
    }
  }

  lemma {:induction false} SameTables(m: Memory, root: nat, v: nat, w: nat, k: nat, bit: bv12)
    requires 1 <= k <= 3 && Prefix(w, k) == Prefix(v, k)
    ensures Open(m, root, 4, w, k, bit) <==> Open(m, root, 4, v, k, bit)
    ensures k == 1 ==> (Allows(m, root, 4, w, bit) <==> Allows(m, root, 4, v, bit))
  {
    hide Index, Prefix;
    forall j | k < j <= 4 ensures Index(w, j) == Index(v, j) { SamePrefix(v, w, k, j); }
    SameWalk(m, root, 4, v, w, k, bit);
  }
}
