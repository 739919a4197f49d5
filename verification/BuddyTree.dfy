/** Power-of-two blocks of pages as nodes of a binary tree: node `Blk(q, o)` is the block
    of 2^o pages whose page numbers shifted right by o give q. */
module BuddyTree {
  import opened Shifts
  import opened Bits

  const MAX_ORDER: nat := 11

  datatype Blk = Blk(q: nat, o: nat)

  /** The other half of the parent block. */
  function Sibling(q: nat): (r: nat)
  {
    if q % 2 == 0 then q + 1 else q - 1
  }

  lemma {:induction false} ShrNext(x: nat, a: nat)
    ensures Shr(x, a + 1) == Shr(x, a) / 2
  {
    ShrShr(x, a, 1);
    assert Shr(Shr(x, a), 1) == Shr(Shr(x, a) / 2, 0);
  }

  /** Flipping bit o of the first page number of a block gives the first page of its
      buddy, and the lower of the two starts the parent block. */
  lemma {:induction false} FlipIsSibling(q: nat, o: nat)
    ensures FlipBit(Shl(q, o), o) == Shl(Sibling(q), o)
    ensures (if Shl(Sibling(q), o) < Shl(q, o) then Shl(Sibling(q), o) else Shl(q, o)) == Shl(q / 2, o + 1)
  {
    ShrOfShl(q, o);
    ShlDouble(q / 2, o);
    if q % 2 == 0 {
      ShlPlus(q, 1, o);
      ShlMonotone(q, q + 1, o);
    } else {
      ShlPlus(q - 1, 1, o);
      ShlMonotone(q - 1, q, o);
    }
  }

  // ----- sets of blocks -----

  /** Block b lies inside block c. */
  predicate Inside(b: Blk, c: Blk)
  {
    b.o <= c.o && Shr(b.q, c.o - b.o) == c.q
  }

  /** Page x lies in some block of S. */
  ghost predicate Covers(S: set<Blk>, x: nat)
  {
    exists o: nat :: o < MAX_ORDER && Blk(Shr(x, o), o) in S
  }

  ghost predicate Orders(S: set<Blk>)
  {
    forall b :: b in S ==> b.o < MAX_ORDER
  }

  ghost predicate Disjoint(S: set<Blk>)
  {
    forall b, c :: b in S && c in S && b != c ==> !Inside(b, c)
  }

  /** No two free buddies below the top order. */
  ghost predicate NoPairs(S: set<Blk>)
  {
    forall b :: b in S && b.o < MAX_ORDER - 1 ==> Blk(Sibling(b.q), b.o) !in S
  }

  ghost predicate Tidy(S: set<Blk>)
  {
    Orders(S) && Disjoint(S) && NoPairs(S)
  }

  /** All pages of block b are covered. */
  ghost predicate AllCovered(S: set<Blk>, b: Blk)
  {
    forall x: nat {:trigger Covers(S, x)} :: Shr(x, b.o) == b.q ==> Covers(S, x)
  }

  /** A block whose pages are all covered lies inside one block of a tidy set: a tidy set
      never holds a coverable block in pieces. */
  lemma {:induction false} CoveredInside(S: set<Blk>, b: Blk) returns (c: Blk)
    requires Tidy(S) && b.o < MAX_ORDER && AllCovered(S, b)
    ensures c in S && Inside(b, c)
    decreases b.o
  {
    if b.o == 0 {
      assert Shr(b.q, 0) == b.q;
      assert Covers(S, b.q);
      var o: nat :| o < MAX_ORDER && Blk(Shr(b.q, o), o) in S;
      c := Blk(Shr(b.q, o), o);
    } else {
      var l, r := Blk(2 * b.q, b.o - 1), Blk(2 * b.q + 1, b.o - 1);
      ChildCovered(S, b, l);
      ChildCovered(S, b, r);
      var cl := CoveredInside(S, l);
      var cr := CoveredInside(S, r);
      if cl.o >= b.o {
        ChildUp(b, l, cl);
        c := cl;
      } else if cr.o >= b.o {
        ChildUp(b, r, cr);
        c := cr;
      } else {
        assert false;
      }
    }
  }

  lemma {:induction false} ChildCovered(S: set<Blk>, b: Blk, l: Blk)
    requires AllCovered(S, b) && b.o > 0 && l.o == b.o - 1 && l.q / 2 == b.q
    ensures AllCovered(S, l)
  {
    forall x: nat {:trigger Covers(S, x)} | Shr(x, l.o) == l.q ensures Covers(S, x) {
      ShrNext(x, l.o);
    }
  }

  lemma {:induction false} ChildUp(b: Blk, l: Blk, c: Blk)
    requires b.o > 0 && l.o == b.o - 1 && l.q / 2 == b.q && Inside(l, c) && c.o >= b.o
    ensures Inside(b, c)
  {
    assert Shr(l.q, c.o - l.o) == Shr(l.q / 2, c.o - b.o);
  }

  /** A block is in a tidy set exactly when all its pages are covered and it cannot be
      enlarged: the set is determined by the pages it covers. */
  lemma {:induction false} TidyMember(S: set<Blk>, b: Blk)
    requires Tidy(S) && b.o < MAX_ORDER
    ensures b in S <==> AllCovered(S, b) && (b.o == MAX_ORDER - 1 || !AllCovered(S, Blk(b.q / 2, b.o + 1)))
  {
    var up := Blk(b.q / 2, b.o + 1);
    if b in S {
      MemberCovered(S, b);
      if b.o < MAX_ORDER - 1 && AllCovered(S, up) {
        var c := CoveredInside(S, up);
        InsideUp(b, c);
      }
    } else if AllCovered(S, b) {
      var c := CoveredInside(S, b);
      assert c.o != b.o;
      ParentInside(b, c);
      InsideCovered(S, up, c);
    }
  }

  lemma {:induction false} MemberCovered(S: set<Blk>, b: Blk)
    requires b in S && b.o < MAX_ORDER
    ensures AllCovered(S, b)
  {
    forall x: nat {:trigger Covers(S, x)} | Shr(x, b.o) == b.q ensures Covers(S, x) {
      assert Blk(Shr(x, b.o), b.o) in S;
    }
  }

  lemma {:induction false} InsideUp(b: Blk, c: Blk)
    requires Inside(Blk(b.q / 2, b.o + 1), c)
    ensures Inside(b, c)
  {
    assert Shr(b.q, c.o - b.o) == Shr(b.q / 2, c.o - b.o - 1);
  }

  lemma {:induction false} ParentInside(b: Blk, c: Blk)
    requires Inside(b, c) && b.o < c.o
    ensures Inside(Blk(b.q / 2, b.o + 1), c)
  {
    assert Shr(b.q, c.o - b.o) == Shr(b.q / 2, c.o - b.o - 1);
  }

  lemma {:induction false} InsideCovered(S: set<Blk>, b: Blk, c: Blk)
    requires c in S && c.o < MAX_ORDER && Inside(b, c)
    ensures AllCovered(S, b)
  {
    forall x: nat {:trigger Covers(S, x)} | Shr(x, b.o) == b.q ensures Covers(S, x) {
      ShrShr(x, b.o, c.o - b.o);
      assert Blk(Shr(x, c.o), c.o) in S;
    }
  }

  /** Canonicity: two tidy sets that cover the same pages are the same set. */
  lemma {:induction false} Canonical(S: set<Blk>, T: set<Blk>)
    requires Tidy(S) && Tidy(T)
    requires forall x: nat {:trigger Covers(S, x)} :: Covers(S, x) <==> Covers(T, x)
    ensures S == T
  {
    forall b ensures b in S <==> b in T {
      if b.o < MAX_ORDER {
        TidyMember(S, b);
        TidyMember(T, b);
        SameCover(S, T, b);
        SameCover(S, T, Blk(b.q / 2, b.o + 1));
      }
    }
  }

  lemma {:induction false} SameCover(S: set<Blk>, T: set<Blk>, b: Blk)
    requires forall x: nat {:trigger Covers(S, x)} :: Covers(S, x) <==> Covers(T, x)
    ensures AllCovered(S, b) <==> AllCovered(T, b)
  {
    if AllCovered(S, b) {
      forall x: nat {:trigger Covers(T, x)} | Shr(x, b.o) == b.q ensures Covers(T, x) {
        assert Covers(S, x);
      }
    }
  }

  // ----- splitting and merging a held block -----

  /** Block c is off the lists and overlaps nothing on them. */
  ghost predicate Held(S: set<Blk>, c: Blk)
  {
    c.o < MAX_ORDER && forall b :: b in S ==> !Inside(b, c) && !Inside(c, b)
  }

  function Parent(c: Blk): (r: Blk) { Blk(c.q / 2, c.o + 1) }

  function Buddy(c: Blk): (r: Blk) { Blk(Sibling(c.q), c.o) }

  ghost predicate CoversWith(S: set<Blk>, c: Blk, x: nat)
  {
    Covers(S, x) || Shr(x, c.o) == c.q
  }

  lemma {:induction false} InsideRefl(b: Blk)
    ensures Inside(b, b)
  {
    assert Shr(b.q, 0) == b.q;
  }

  /** What lies strictly inside a block lies inside one of its halves. */
  lemma {:induction false} InsideHalf(b: Blk, c: Blk)
    requires Inside(b, Parent(c)) && b.o <= c.o
    ensures Inside(b, c) || Inside(b, Buddy(c))
  {
    ShrNext(b.q, c.o - b.o);
  }

  lemma {:induction false} HalfInside(b: Blk, c: Blk)
    requires Inside(b, c) || Inside(b, Buddy(c))
    ensures Inside(b, Parent(c))
  {
    ShrNext(b.q, c.o - b.o);
  }

  lemma {:induction false} SiblingTwice(q: nat)
    ensures Sibling(Sibling(q)) == q && Sibling(q) / 2 == q / 2 && Sibling(q) != q
  {
  }

  /** Blocks that contain a half and are larger contain the whole. */
  lemma {:induction false} AboveHalf(c: Blk, b: Blk)
    requires c.o < b.o
    ensures Inside(c, b) <==> Inside(Parent(c), b)
  {
    assert Shr(c.q, b.o - c.o) == Shr(c.q / 2, b.o - c.o - 1);
  }

  /** Taking a block off its list. */
  lemma {:induction false} TakeBlock(S: set<Blk>, c: Blk)
    requires Tidy(S) && c in S
    ensures Tidy(S - {c}) && Held(S - {c}, c)
    ensures forall x: nat {:trigger Covers(S, x)} {:trigger Covers(S - {c}, x)} :: Covers(S, x) <==>
      CoversWith(S - {c}, c, x)
  {
    forall x: nat {:trigger Covers(S, x)} {:trigger Covers(S - {c}, x)} ensures Covers(S, x) <==>
      CoversWith(S - {c}, c, x) {
      assert S - {c} + {c} == S;
      CoversAdd(S - {c}, c, x);
    }
  }

  lemma {:induction false} CoversAdd(S: set<Blk>, c: Blk, x: nat)
    requires c.o < MAX_ORDER
    ensures Covers(S + {c}, x) <==> CoversWith(S, c, x)
  {
    if Covers(S + {c}, x) {
      var o: nat :| o < MAX_ORDER && Blk(Shr(x, o), o) in S + {c};
      assert Blk(Shr(x, o), o) in S || Blk(Shr(x, o), o) == c;
    }
    if Covers(S, x) {
      var o: nat :| o < MAX_ORDER && Blk(Shr(x, o), o) in S;
      assert Blk(Shr(x, o), o) in S + {c};
    }
    if Shr(x, c.o) == c.q {
      assert Blk(Shr(x, c.o), c.o) in S + {c};
    }
  }

  /** Putting a held block back when its buddy is not free. */
  lemma {:induction false} PutBlock(S: set<Blk>, c: Blk)
    requires Tidy(S) && Held(S, c) && (c.o == MAX_ORDER - 1 || Buddy(c) !in S)
    ensures Tidy(S + {c})
    ensures forall x: nat {:trigger Covers(S + {c}, x)} :: Covers(S + {c}, x) <==> CoversWith(S, c, x)
  {
    forall b | b in S + {c} && b.o < MAX_ORDER - 1 ensures Blk(Sibling(b.q), b.o) !in S + {c} {
      SiblingTwice(b.q);
    }
    forall x: nat {:trigger Covers(S + {c}, x)} ensures Covers(S + {c}, x) <==> CoversWith(S, c, x) {
      CoversAdd(S, c, x);
    }
  }

  /** One step of splitting: the upper half goes on a list, the lower is held. */
  lemma {:induction false} SplitHeld(S: set<Blk>, c: Blk, l: Blk, S': set<Blk>)
    requires Tidy(S) && Held(S, c) && c.o > 0 && l == Blk(2 * c.q, c.o - 1) && S' == S + {Blk(2 * c.q + 1, c.o - 1)}
    ensures Tidy(S') && Held(S', l)
    ensures forall x: nat {:trigger CoversWith(S', l, x)} {:trigger CoversWith(S, c, x)} :: CoversWith(S', l, x) <==>
      CoversWith(S, c, x)
  {
    var r := Blk(2 * c.q + 1, c.o - 1);
    assert Parent(l) == c && Parent(r) == c && Buddy(l) == r && Buddy(r) == l;
    forall b | b in S ensures !Inside(b, l) && !Inside(l, b) && !Inside(b, r) && !Inside(r, b) {
      HalfApart(b, l);
      HalfApart(b, r);
    }
    HalvesApart(l, r);
    assert l !in S by { InsideRefl(l); }
    PutBlock(S, r);
    forall x: nat {:trigger CoversWith(S', l, x)} {:trigger CoversWith(S, c, x)} ensures CoversWith(S', l, x) <==>
      CoversWith(S, c, x) {
      ShrNext(x, l.o);
      assert Covers(S', x) <==> CoversWith(S, r, x);
    }
  }

  lemma {:induction false} HalfApart(b: Blk, l: Blk)
    requires !Inside(b, Parent(l)) && !Inside(Parent(l), b)
    ensures !Inside(b, l) && !Inside(l, b)
  {
    if Inside(b, l) {
      HalfInside(b, l);
    } else if Inside(l, b) {
      if l.o < b.o {
        AboveHalf(l, b);
      } else {
        InsideRefl(l);
        HalfInside(b, l);
      }
    }
  }

  lemma {:induction false} HalvesApart(l: Blk, r: Blk)
    requires l.o == r.o && l.q != r.q
    ensures !Inside(l, r) && !Inside(r, l)
  {
  }

  /** One step of merging: a held block and its free buddy become the held parent. */
  lemma {:induction false} MergeHeld(S: set<Blk>, c: Blk, S': set<Blk>)
    requires Tidy(S) && Held(S, c) && c.o < MAX_ORDER - 1 && Buddy(c) in S && S' == S - {Buddy(c)}
    ensures Tidy(S') && Held(S', Parent(c))
    ensures forall x: nat {:trigger CoversWith(S', Parent(c), x)} {:trigger CoversWith(S, c, x)} ::
      CoversWith(S', Parent(c), x) <==> CoversWith(S, c, x)
  {
    var d := Buddy(c);
    SiblingTwice(c.q);
    TakeBlock(S, d);
    forall b | b in S' ensures !Inside(b, Parent(c)) && !Inside(Parent(c), b) {
      assert b in S && b != d;
      ParentApart(b, c);
    }
    forall x: nat {:trigger CoversWith(S', Parent(c), x)} {:trigger CoversWith(S, c, x)}
      ensures CoversWith(S', Parent(c), x) <==> CoversWith(S, c, x) {
      ShrNext(x, c.o);
      HalfOfParent(Shr(x, c.o), c.q);
      assert Covers(S, x) <==> CoversWith(S', d, x);
    }
  }

  lemma {:induction false} HalfOfParent(a: nat, q: nat)
    ensures a / 2 == q / 2 <==> a == q || a == Sibling(q)
  {
  }

  lemma {:induction false} ParentApart(b: Blk, c: Blk)
    requires !Inside(b, c) && !Inside(c, b) && !Inside(b, Buddy(c)) && !Inside(Buddy(c), b)
    ensures !Inside(b, Parent(c)) && !Inside(Parent(c), b)
  {
    if Inside(b, Parent(c)) && b.o <= c.o {
      InsideHalf(b, c);
    } else if c.o < b.o {
      AboveHalf(c, b);
      if b == Parent(c) {
        InsideRefl(b);
      }
    }
  }
}
