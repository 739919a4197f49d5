/** Whole runs of mapping and unmapping seen as updates of one flat table. */
module VmmTheorems {
  import opened BuddyTree
  import opened Pmm
  import opened Wrappers
  import opened VmmState
  import opened VmmSteps
  import opened VmmClear
  import opened VmmRights
  import opened Vmm

  datatype Command = CMap(v: nat, frame: nat, flags: bv12, high: nat) | CUnmap(v: nat)

  /** The flat table: page numbers to frames, and the 2 MiB ranges that are still mapped in
      one piece, each with the page that `unmap_page` would take for its table. */
  datatype Flat = Flat(frames: map<nat, nat>, large: map<nat, nat>)

  /** The 2 MiB range of an address. */
  function Range(v: nat): nat { Prefix(v, 1) }

  /** The flat table without the pages and ranges below a place. */
  function Without(flat: Flat, top: Node): Flat
  {
    Flat(map p | p in flat.frames && !Under(Node(0, p), top) :: flat.frames[p],
         map r | r in flat.large && !Under(Node(1, r), top) :: flat.large[r])
  }

  /** One command when the tables are those of node. Mapping a page splits its range.
      Unmapping a page of a range in one piece does nothing, or, if the page that the range
      starts with is a table, unmaps what is below one entry of it. */
  function Step(flat: Flat, node: map<nat, Node>, c: Command): Flat
  {
    match c
    case CMap(v, frame, _, _) => Flat(flat.frames[Page(v) := frame], flat.large - {Range(v)})
    case CUnmap(v) =>
      if Range(v) !in flat.large then Flat(flat.frames - {Page(v)}, flat.large)
      else if flat.large[Range(v)] in node && node[flat.large[Range(v)]].level >= 1
      then Without(flat, Slot(node[flat.large[Range(v)]], Index(v, 1)))
      else flat
  }

  /** The commands in order, each with the tables that there are then. */
  function Steps(flat: Flat, nodes: seq<map<nat, Node>>, cmds: seq<Command>): Flat
    requires |nodes| >= |cmds|
  {
    if cmds == [] then flat
    else Step(Steps(flat, nodes, cmds[..|cmds| - 1]), nodes[|cmds| - 1], cmds[|cmds| - 1])
  }

  /** The commands in order, when no 2 MiB range maps a table. */
  function PlainSteps(flat: Flat, cmds: seq<Command>): Flat
  {
    if cmds == [] then flat else Step(PlainSteps(flat, cmds[..|cmds| - 1]), map[], cmds[|cmds| - 1])
  }

  /** What the flat table says about a page. */
  function At(frames: map<nat, nat>, page: nat): Option<nat>
  {
    if page in frames then Some(frames[page]) else None
  }

  function FrameOf(r: Option<Leaf>): Option<nat>
  {
    match r
    case None => None
    case Some(leaf) => Some(leaf.frame)
  }

  /** The page that the directory entry of a 2 MiB mapping points to, from its leaf at w. */
  function Base(leaf: Leaf, w: nat): int { leaf.high * 0x100_0000_0000 + leaf.frame - Index(w, 1) }

  ghost predicate ShowsAt(r: Option<Leaf>, flat: Flat, w: nat)
  {
    && FrameOf(r) == At(flat.frames, Page(w))
    && (r.Some? && r.value.large <==> Range(w) in flat.large)
    && (r.Some? && r.value.large && Range(w) in flat.large ==> flat.large[Range(w)] == Base(r.value, w))
  }

  /** The walk of every address gives what the flat table gives. */
  ghost predicate Shows(m: Memory, root: nat, flat: Flat)
  {
    forall w: nat {:trigger Resolve(m, root, 4, w)} :: ShowsAt(Resolve(m, root, 4, w), flat, w)
  }

  lemma {:induction false} MapStep(m: Memory, m': Memory, root: nat, flat: Flat, v: nat, leaf: Leaf, u: bv12)
    requires Shows(m, root, flat) && Mapped(m, m', root, v, leaf, u) && !leaf.large
    ensures Shows(m', root, Flat(flat.frames[Page(v) := leaf.frame], flat.large - {Range(v)}))
  {
    hide Resolve, Page, Prefix, Index;
    var flat' := Flat(flat.frames[Page(v) := leaf.frame], flat.large - {Range(v)});
    assert ShowsAt(Resolve(m, root, 4, v), flat, v);
    forall w: nat {:trigger Resolve(m', root, 4, w)} ensures ShowsAt(Resolve(m', root, 4, w), flat', w) {
      assert ShowsAt(Resolve(m, root, 4, w), flat, w);
      if Page(w) == Page(v) {
        SamePlace(v, w, 1);
      }
    }
  }

  lemma {:induction false} UnmapStep(m: Memory, m': Memory, root: nat, flat: Flat, v: nat)
    requires Shows(m, root, flat) && Unmapped(m, m', root, v) && Range(v) !in flat.large
    ensures Shows(m', root, Flat(flat.frames - {Page(v)}, flat.large))
  {
    hide Resolve, Page, Prefix, Index;
    forall w: nat {:trigger Resolve(m', root, 4, w)}
      ensures ShowsAt(Resolve(m', root, 4, w), Flat(flat.frames - {Page(v)}, flat.large), w) {
      assert ShowsAt(Resolve(m, root, 4, w), flat, w);
      if Page(w) == Page(v) {
        SamePlace(v, w, 1);
      }
    }
  }

  lemma {:induction false} SameShows(m: Memory, m': Memory, root: nat, flat: Flat)
    requires Shows(m, root, flat) && Same(m, m', root)
    ensures Shows(m', root, flat)
  {
    hide Resolve, ShowsAt;
    forall w: nat {:trigger Resolve(m', root, 4, w)} ensures ShowsAt(Resolve(m', root, 4, w), flat, w) {
      assert ShowsAt(Resolve(m, root, 4, w), flat, w);
    }
  }

  lemma {:induction false} LargeShown(m: Memory, root: nat, flat: Flat, v: nat)
    requires Shows(m, root, flat)
    ensures InLarge(m, root, v) <==> Range(v) in flat.large
    ensures forall e {:trigger LargeFor(m, root, v, e)} :: LargeFor(m, root, v, e) ==>
      Range(v) in flat.large && Pointer(e) == flat.large[Range(v)]
  {
    hide Resolve, Page, Prefix, Index;
    assert ShowsAt(Resolve(m, root, 4, v), flat, v);
  }

  /** Clearing an entry of a table of any level. */
  lemma {:induction false} ClearStep(m: Memory, m': Memory, root: nat, node: map<nat, Node>, flat: Flat, f: nat, i: nat)
    requires Shows(m, root, flat) && Sound(m, root, node) && f in node && i < 512 && 1 <= node[f].level <= 4
      && m' == Put(m, f, i, EMPTY)
    ensures Shows(m', root, Without(flat, Slot(node[f], i)))
  {
    hide Resolve, Page, Prefix, Index, Tree, LargeAligned, Under, Through;
    Clears(m, m', root, node, f, i);
    var flat' := Without(flat, Slot(node[f], i));
    forall w: nat {:trigger Resolve(m', root, 4, w)} ensures ShowsAt(Resolve(m', root, 4, w), flat', w) {
      assert ShowsAt(Resolve(m, root, 4, w), flat, w);
      UnderThrough(node, f, i, w);
      if node[f].level == 1 && Through(node, f, i, w) {
        LeafSmall(m, root, node, f, i, w);
      }
    }
  }

  lemma {:induction false} LeafSmall(m: Memory, root: nat, node: map<nat, Node>, f: nat, i: nat, w: nat)
    requires Sound(m, root, node) && f in node && i < 512 && node[f].level == 1 && Through(node, f, i, w)
    ensures !(Resolve(m, root, 4, w).Some? && Resolve(m, root, 4, w).value.large)
  {
    LeafWalk(m, root, node, f, i, w);
  }

  /** Page f is or may become a table only if it was one or might have become one. */
  ghost predicate Within(node: map<nat, Node>, S: set<Blk>, node': map<nat, Node>, S': set<Blk>)
  {
    forall f: nat {:trigger Owned(node', S', f)} :: Owned(node', S', f) ==> Owned(node, S, f)
  }

  lemma {:induction false} WithinTrans(a: map<nat, Node>, Sa: set<Blk>, b: map<nat, Node>, Sb: set<Blk>, c: map<nat,
      Node>, Sc: set<Blk>)
    requires Within(a, Sa, b, Sb) && Within(b, Sb, c, Sc)
    ensures Within(a, Sa, c, Sc)
  {
    hide Owned;
  }

  lemma {:induction false} GrownWithin(a: map<nat, Node>, Sa: set<Blk>, b: map<nat, Node>, Sb: set<Blk>)
    requires Grown(a, Sa, b, Sb)
    ensures Within(a, Sa, b, Sb)
  {
  }

  lemma {:induction false} FewerWithin(a: map<nat, Node>, S: set<Blk>, b: map<nat, Node>)
    requires forall f: nat {:trigger f in b} :: f in b ==> f in a
    ensures Within(a, S, b, S)
  {
    hide Covers;
  }

  /** The tables at every step are tables of the start or were free then. */
  ghost predicate AllWithin(node: map<nat, Node>, S: set<Blk>, nodes: seq<map<nat, Node>>)
  {
    forall i, f: nat {:trigger f in nodes[i]} :: 0 <= i < |nodes| && f in nodes[i] ==> Owned(node, S, f)
  }

  /** What one command does to the tables: mapping leaves them where they hang, and only
      unmapping a page of a range in one piece loses some. */
  ghost predicate Follows(node: map<nat, Node>, node': map<nat, Node>, flat: Flat, c: Command)
  {
    match c
    case CMap(_, _, _, _) => forall f {:trigger f in node} {:trigger f in node'} :: f in node ==>
      f in node' && node'[f] == node[f]
    case CUnmap(v) => node' == if Range(v) in flat.large then Kept(node, flat.large[Range(v)], Index(v, 1)) else node
  }

  /** The tables before every command and after the last. */
  ghost predicate Tables(flat: Flat, nodes: seq<map<nat, Node>>, cmds: seq<Command>)
  {
    |nodes| == |cmds| + 1 && forall i {:trigger cmds[i]} :: 0 <= i < |cmds| ==>
      Follows(nodes[i], nodes[i + 1], Steps(flat, nodes, cmds[..i]), cmds[i])
  }

  /** Unless the kernel halts, the tables after any run of commands translate every address
      as the flat table after the same commands: splits of 2 MiB mappings, unmappings in the
      pieces and unmappings that hit the tables themselves included. */
  method Run(t: PageTables, cmds: seq<Command>, ghost flat: Flat)
      returns (halted: bool, ghost nodes: seq<map<nat, Node>>)
    requires t.Valid() && Shows(t.mem, t.root, flat)
    modifies t, t.pmm
    ensures t.Valid() && t.root == old(t.root)
    ensures !halted ==> Tables(flat, nodes, cmds) && nodes[0] == old(t.node) && nodes[|cmds|] == t.node
    ensures !halted ==> AllWithin(old(t.node), old(t.pmm.S), nodes) && Shows(t.mem, t.root, Steps(flat, nodes, cmds))
  {
    hide Shows, Mapped, Unmapped, InLarge, Sound, NotFree, Pmm.Sorted, Page, Resolve, Grown, Owned, Within, LargeFor,
      Prefix, Step, AllWithin, Follows, Tables;
    ghost var node0, S0 := t.node, t.pmm.S;
    GrownAlready(node0, S0);
    GrownWithin(node0, S0, node0, S0);
    assert cmds[..0] == [];
    nodes := [node0];
    FirstTables(flat, node0, S0);
    for i := 0 to |cmds|
      invariant t.Valid() && t.root == old(t.root) && Within(node0, S0, t.node, t.pmm.S)
      invariant |nodes| == i + 1 && nodes[0] == node0 && nodes[i] == t.node && AllWithin(node0, S0, nodes)
      invariant Tables(flat, nodes, cmds[..i]) && Shows(t.mem, t.root, Steps(flat, nodes, cmds[..i]))
    {
      ghost var f, node1, S1 := Steps(flat, nodes, cmds[..i]), t.node, t.pmm.S;
      halted := RunStep(t, cmds[i], f);
      if halted { return; }
      WithinTrans(node0, S0, node1, S1, t.node, t.pmm.S);
      NextWithin(node0, S0, nodes, t.node, t.pmm.S);
      NextTables(flat, nodes, t.node, cmds, i);
      nodes := nodes + [t.node];
    }
    assert cmds[..|cmds|] == cmds;
    halted := false;
  }

  lemma {:induction false} FirstTables(flat: Flat, node: map<nat, Node>, S: set<Blk>)
    ensures AllWithin(node, S, [node]) && Tables(flat, [node], [])
  {
  }

  lemma {:induction false} NextTables(flat: Flat, nodes: seq<map<nat, Node>>, node': map<nat, Node>,
      cmds: seq<Command>, i: nat)
    requires i < |cmds| && Tables(flat, nodes, cmds[..i])
      && Follows(nodes[i], node', Steps(flat, nodes, cmds[..i]), cmds[i])
    ensures Tables(flat, nodes + [node'], cmds[..i + 1])
    ensures Steps(flat, nodes + [node'], cmds[..i + 1]) == Step(Steps(flat, nodes, cmds[..i]), nodes[i], cmds[i])
  {
    hide Follows, Step;
    var more, longer := cmds[..i + 1], nodes + [node'];
    assert more[..i] == cmds[..i];
    StepsSame(flat, nodes, longer, cmds[..i]);
    forall j {:trigger more[j]} | 0 <= j < i + 1
      ensures Follows(longer[j], longer[j + 1], Steps(flat, longer, more[..j]), more[j]) {
      assert more[..j] == cmds[..j];
      if j < i {
        assert cmds[..i][j] == cmds[j] && cmds[..i][..j] == cmds[..j];
        StepsSame(flat, nodes, longer, cmds[..j]);
      }
    }
  }

  lemma {:induction false} NextWithin(node: map<nat, Node>, S: set<Blk>, nodes: seq<map<nat, Node>>, node': map<nat,
      Node>, S': set<Blk>)
    requires AllWithin(node, S, nodes) && Within(node, S, node', S')
    ensures AllWithin(node, S, nodes + [node'])
  {
    hide Covers;
    forall f: nat | f in node' ensures Owned(node, S, f) {
      assert Owned(node', S', f);
    }
  }

  /** Later tables do not matter for earlier commands. */
  lemma {:induction false} StepsSame(flat: Flat, nodes: seq<map<nat, Node>>, nodes': seq<map<nat, Node>>,
      cmds: seq<Command>)
    requires nodes <= nodes' && |nodes| >= |cmds|
    ensures Steps(flat, nodes', cmds) == Steps(flat, nodes, cmds)
  {
    if cmds != [] {
      StepsSame(flat, nodes, nodes', cmds[..|cmds| - 1]);
    }
  }

  method RunStep(t: PageTables, c: Command, ghost flat: Flat) returns (halted: bool)
    requires t.Valid() && Shows(t.mem, t.root, flat)
    modifies t, t.pmm
    ensures t.Valid() && t.root == old(t.root) && Within(old(t.node), old(t.pmm.S), t.node, t.pmm.S)
    ensures !halted ==> Shows(t.mem, t.root, Step(flat, old(t.node), c)) && Follows(old(t.node), t.node, flat, c)
  {
    hide Shows, Mapped, Unmapped, InLarge, Sound, NotFree, Pmm.Sorted, Page, Resolve, Owned, LargeFor, Prefix, Within,
      Kept, Missed;
    ghost var m, node0, S0 := t.mem, t.node, t.pmm.S;
    match c
    case CMap(v, frame, flags, high) =>
      halted := t.MapPage(v, frame, flags, high);
      GrownWithin(node0, S0, t.node, t.pmm.S);
      if halted { return; }
      MapStep(m, t.mem, t.root, flat, v, Leaf(frame, flags | PRESENT, high, false), flags & USER);
    case CUnmap(v) =>
      t.UnmapPage(v);
      UnmapAny(m, t.mem, t.root, flat, node0, t.node, t.pmm.S, v);
      halted := false;
  }

  lemma {:induction false} UnmapAny(m: Memory, m': Memory, root: nat, flat: Flat, node: map<nat, Node>,
      node': map<nat, Node>, S: set<Blk>, v: nat)
    requires Shows(m, root, flat) && Sound(m, root, node) && (Unmapped(m, m', root, v) <==> !InLarge(m, root, v))
    requires if InLarge(m, root, v) then Missed(m, m', root, node, node', v) else node' == node
    ensures Shows(m', root, Step(flat, node, CUnmap(v))) && Within(node, S, node', S)
      && Follows(node, node', flat, CUnmap(v))
  {
    hide Shows, Unmapped, InLarge, Sound, Page, Resolve, LargeFor, Prefix, Covers, Without, Under, Within;
    LargeShown(m, root, flat, v);
    FewerWithin(node, S, node');
    if InLarge(m, root, v) {
      var e :| LargeFor(m, root, v, e) && m' == Put(m, Pointer(e), Index(v, 1), EMPTY)
        && node' == Kept(node, Pointer(e), Index(v, 1));
      if Pointer(e) in node {
        Levels(m, root, node, Pointer(e));
        ClearStep(m, m', root, node, flat, Pointer(e), Index(v, 1));
      } else {
        LargeStaysMapped(m, root, node, v, e);
        SameShows(m, m', root, flat);
      }
    } else {
      UnmapStep(m, m', root, flat, v);
    }
  }

  /** In no step is a page of a range in one piece unmapped whose entry points to a table or
      to a page that may become one. */
  ghost predicate Harmless(node: map<nat, Node>, S: set<Blk>, flat: Flat, cmds: seq<Command>)
  {
    forall i {:trigger cmds[i]} :: 0 <= i < |cmds| && cmds[i].CUnmap? ==>
      HarmlessStep(node, S, PlainSteps(flat, cmds[..i]), cmds[i].v)
  }

  ghost predicate HarmlessStep(node: map<nat, Node>, S: set<Blk>, flat: Flat, v: nat)
  {
    Range(v) in flat.large ==> !Owned(node, S, flat.large[Range(v)])
  }

  /** Then the tables do not matter for what the run does. */
  lemma {:induction false} HarmlessSteps(node: map<nat, Node>, S: set<Blk>, flat: Flat, nodes: seq<map<nat, Node>>,
      cmds: seq<Command>)
    requires Harmless(node, S, flat, cmds) && |nodes| >= |cmds| && AllWithin(node, S, nodes)
    ensures Steps(flat, nodes, cmds) == PlainSteps(flat, cmds)
  {
    hide Owned, Page, Range, Without, Prefix;
    if cmds != [] {
      var n := |cmds| - 1;
      forall i {:trigger cmds[..n][i]} | 0 <= i < n && cmds[..n][i].CUnmap?
        ensures HarmlessStep(node, S, PlainSteps(flat, cmds[..n][..i]), cmds[..n][i].v)
      {
        assert cmds[..n][..i] == cmds[..i] && cmds[..n][i] == cmds[i];
      }
      HarmlessSteps(node, S, flat, nodes[..n], cmds[..n]);
      StepsSame(flat, nodes[..n], nodes, cmds[..n]);
      assert cmds[n].CUnmap? ==> HarmlessStep(node, S, PlainSteps(flat, cmds[..n]), cmds[n].v);
    }
  }

  /** If the page is a last-level table, a page that has nothing to do with v loses its
      mapping, and v keeps its own. */
  lemma {:induction false} LargeUnmapsOther(m: Memory, root: nat, node: map<nat, Node>, v: nat, e: Entry)
    requires Sound(m, root, node) && LargeFor(m, root, v, e) && Pointer(e) in node && node[Pointer(e)].level == 1
    ensures var m' := Put(m, Pointer(e), Index(v, 1), EMPTY);
      LeafSet(m, m', root, 512 * node[Pointer(e)].prefix + Index(v, 1), None)
        && Resolve(m', root, 4, v) == Resolve(m, root, 4, v)
  {
    hide Tree, LargeAligned, Resolve, Prefix, Index;
    var f, i := Pointer(e), Index(v, 1);
    SetLeaf(m, Put(m, f, i, EMPTY), root, node, f, i, EMPTY);
    LargeNotLeaf(m, root, node, v, f);
  }

  // ----- attributes of the pieces -----

  /** When a mapping is split, the other pages of its range keep their frames, and their
      attributes exactly if no bit above 51 was set and the user bit is not new. */
  lemma {:induction false} SplitKeeps(m: Memory, m': Memory, root: nat, v: nat, leaf: Leaf, u: bv12, w: nat)
    requires Mapped(m, m', root, v, leaf, u) && (u == 0 || u == USER) && InLarge(m, root, v)
    requires Prefix(w, 1) == Prefix(v, 1) && Page(w) != Page(v) && InLarge(m, root, w)
    ensures var r, r' := Resolve(m, root, 4, w), Resolve(m', root, 4, w);
      && r.Some? && r'.Some? && r'.value.frame == r.value.frame
      && (r'.value.low == r.value.low && r'.value.high == r.value.high <==>
            r.value.high == 0 && (u == 0 || r.value.low & USER != 0))
  {
    hide Resolve, Page, Prefix;
    var r, r' := Resolve(m, root, 4, w), Resolve(m', root, 4, w);
    assert Piece(r, r', u);
    UserKept(r.value.low, u);
  }

  lemma {:induction false} UserKept(x: bv12, u: bv12)
    requires u == 0 || u == USER
    ensures x | u == x <==> u == 0 || x & USER != 0
  {
  }

  // ----- one 2 MiB mapping -----

  /** Tables in pages 1, 2 and 3 that map the first 2 MiB to page 512 on, not executable. */
  ghost function Small(): Memory
  {
    imap a: int | true :: OneEntry(a)
  }

  function OneEntry(a: int): Table
  {
    if a == 1 then Zeroed()[0 := TableEntry(2, 0)]
    else if a == 2 then Zeroed()[0 := TableEntry(3, 0)]
    else if a == 3 then Zeroed()[0 := Entry(PRESENT | PS, 512, 0x800)]
    else Zeroed()
  }

  function SmallNode(): map<nat, Node> { map[1 := Node(4, 0), 2 := Node(3, 0), 3 := Node(2, 0)] }

  lemma {:induction false} SmallEntry(f: nat, j: nat)
    requires j < 512
    ensures f in SmallNode() && Present(Small()[f][j]) ==> j == 0
    ensures Small()[1][0] == TableEntry(2, 0) && Small()[2][0] == TableEntry(3, 0)
      && Small()[3][0] == Entry(PRESENT | PS, 512, 0x800)
    ensures Inner(TableEntry(2, 0), 4) && Inner(TableEntry(3, 0), 3) && !Inner(Entry(PRESENT | PS, 512, 0x800), 2)
  {
  }

  lemma {:induction false} SmallSound()
    ensures Sound(Small(), 1, SmallNode())
  {
    hide Small, Inner, Present;
    var m, node := Small(), SmallNode();
    SmallEntry(1, 0);
    assert Hangs(m, node, 2, 1) && Hangs(m, node, 3, 2);
    forall f: nat, j: nat | f in node && j < 512 ensures Inner(m[f][j], node[f].level) ==> j == 0 && f != 3
      ensures node[f].level == 2 && Present(m[f][j]) && Large(m[f][j]) ==> m[f][j].frame % 512 == 0
    {
      SmallEntry(f, j);
      InnerPresent(m[f][j], node[f].level);
    }
  }

  lemma {:induction false} InnerPresent(e: Entry, l: nat)
    ensures Inner(e, l) ==> Present(e)
  {
  }

  lemma {:induction false} FirstPages()
    ensures Index(0, 1) == 0 && Index(4096, 1) == 1 && Prefix(0, 1) == Prefix(4096, 1)
    ensures forall l :: 2 <= l <= 4 ==> Index(0, l) == 0 == Index(4096, l)
  {
    TwelveBits(0);
    TwelveBits(4096);
    NineMore(0, 12);
    NineMore(0, 21);
    NineMore(0, 30);
    NineMore(4096, 12);
    NineMore(4096, 21);
    NineMore(4096, 30);
  }

  lemma {:induction false} SmallResolves(v: nat)
    requires forall l :: 2 <= l <= 4 ==> Index(v, l) == 0
    ensures Resolve(Small(), 1, 4, v) == Some(Leaf(512 + Index(v, 1), PRESENT, 0x800, true))
  {
    hide Index;
    var m := Small();
    assert Resolve(m, 3, 2, v) == Some(Leaf(512 + Index(v, 1), PRESENT, 0x800, true));
    assert Resolve(m, 2, 3, v) == Resolve(m, 3, 2, v);
  }

  /** Unmapping address 0 there changes no translation. */
  lemma {:induction false} SmallMissed(m': Memory, node': map<nat, Node>)
    requires Missed(Small(), m', 1, SmallNode(), node', 0)
    ensures Resolve(m', 1, 4, 0) == Some(Leaf(512, PRESENT, 0x800, true)) && Same(Small(), m', 1)
  {
    hide Resolve, Small, SmallNode, Index;
    FirstPages();
    SmallSound();
    SmallResolves(0);
    var m := Small();
    var e :| LargeFor(m, 1, 0, e) && m' == Put(m, Pointer(e), Index(0, 1), EMPTY);
    assert Pointer(e) !in SmallNode() by { assert e.frame == 512 && e.high == 0x800; SmallPages(); }
    LargeStaysMapped(m, 1, SmallNode(), 0, e);
  }

  lemma {:induction false} SmallPages()
    ensures 0x800 * 0x100_0000_0000 + 512 !in SmallNode()
  {
  }

  /** Mapping address 0 there makes the page beside it executable. */
  lemma {:induction false} SmallSplit(m': Memory, leaf: Leaf)
    requires Mapped(Small(), m', 1, 0, leaf, 0)
    ensures Resolve(Small(), 1, 4, 4096) == Some(Leaf(513, PRESENT, 0x800, true))
    ensures Resolve(m', 1, 4, 4096) == Some(Leaf(513, PRESENT, 0, false))
  {
    hide Resolve, Small, Index;
    FirstPages();
    SmallResolves(0);
    SmallResolves(4096);
    Places(0, 0);
    Places(4096, 0);
  }

  /** With the user bit it also opens that page to the user. */
  lemma {:induction false} SmallUser(m': Memory, flags: bv12)
    requires Permits(Small(), m', 1, 0, flags)
    ensures !Grants(Small(), 1, 4, 4096, USER) && (Grants(m', 1, 4, 4096, USER) <==> flags & USER == USER)
  {
    hide Resolve, Index, Open, Allows;
    FirstPages();
    SmallResolves(0);
    Places(0, 0);
    Places(4096, 0);
    assert PermitsAt(Small(), m', 1, 0, flags, 4096);
    SmallClosed(4096);
  }

  lemma {:induction false} SmallClosed(v: nat)
    requires Index(v, 4) == 0
    ensures !Grants(Small(), 1, 4, v, USER)
  {
    hide Index;
    SmallEntry(1, 0);
    assert !Has(TableEntry(2, 0), USER);
  }
}
