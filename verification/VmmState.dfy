/** Four-level page tables: entries, the tree they form and the walk over it. Physical
    addresses are in units of pages. */
module VmmState {
  import opened Shifts
  import opened Wrappers

  /** A table entry by its bit fields: bits 0 to 11, 12 to 51 and 52 to 63. */
  datatype Entry = Entry(low: bv12, frame: nat, high: nat)

  const PRESENT: bv12 := 0x001
  const WRITABLE: bv12 := 0x002
  const USER: bv12 := 0x004
  const PS: bv12 := 0x080

  const EMPTY: Entry := Entry(0, 0, 0)

  predicate Present(e: Entry) { e.low & 0x001 != 0 }

  /** The `PTE_PS` bit: in a page directory, a 2 MiB mapping. */
  predicate Large(e: Entry) { e.low & 0x080 != 0 }

  /** The page that `entry & ~0xFFF` points to. */
  function Pointer(e: Entry): nat { e.high * 0x100_0000_0000 + e.frame }

  type Table = t: seq<Entry> | |t| == 512 witness seq(512, i => Entry(0, 0, 0))

  ghost predicate TotalTables(m: imap<int, Table>) { forall a: int :: a in m }

  /** Physical memory, every page seen as 512 entries. */
  type Memory = m: imap<int, Table> | TotalTables(m) ghost witness imap a: int | true :: seq(512, i => Entry(0, 0, 0))

  function Zeroed(): Table { seq(512, i => EMPTY) }

  function Put(m: Memory, f: int, i: nat, e: Entry): Memory
    requires i < 512
  {
    m[f := m[f][i := e]]
  }

  // ----- virtual addresses -----

  /** `PT_INDEX`, `PD_INDEX`, `PDPT_INDEX` and `PML4_INDEX` for levels one to four. */
  function Index(v: nat, l: nat): (i: nat)
    requires 1 <= l <= 4
    ensures i < 512
  {
    Shr(v, 9 * l + 3) % 512
  }

  /** The indices of levels above l, packed together. */
  function Prefix(v: nat, l: nat): nat
    requires l <= 4
    decreases 4 - l
  {
    if l == 4 then 0 else 512 * Prefix(v, l + 1) + Index(v, l + 1)
  }

  /** The page number of a virtual address. */
  function Page(v: nat): nat { Prefix(v, 0) }

  /** Packing the four indices gives bits 12 to 47. */
  lemma {:induction false} PageIsBits(v: nat)
    ensures Page(v) == Shr(v, 12) % 0x10_0000_0000
  {
    var a := Shr(v, 12);
    NineMore(v, 12);
    NineMore(v, 21);
    NineMore(v, 30);
    assert Prefix(v, 3) == 512 * Prefix(v, 4) + Index(v, 4);
    assert Prefix(v, 2) == 512 * Prefix(v, 3) + Index(v, 3);
    assert Prefix(v, 1) == 512 * Prefix(v, 2) + Index(v, 2);
    assert Prefix(v, 0) == 512 * Prefix(v, 1) + Index(v, 1);
    FourDigits(a, a / 512, a / 512 / 512, a / 512 / 512 / 512);
  }

  lemma {:induction false} NineMore(v: nat, k: nat)
    ensures Shr(v, k + 9) == Shr(v, k) / 512
  {
    ShrShr(v, k, 9);
    var x := Shr(v, k);
    assert Shr(x, 9) == Shr(x / 2, 8) == Shr(x / 2 / 2, 7) == Shr(x / 2 / 2 / 2, 6);
    var y := x / 2 / 2 / 2;
    assert Shr(y, 6) == Shr(y / 2, 5) == Shr(y / 2 / 2, 4) == Shr(y / 2 / 2 / 2, 3);
    var z := y / 2 / 2 / 2;
    assert Shr(z, 3) == Shr(z / 2, 2) == Shr(z / 2 / 2, 1) == Shr(z / 2 / 2 / 2, 0);
    assert y == x / 8 && z == y / 8;
  }

  lemma {:induction false} FourDigits(a: nat, b: nat, c: nat, d: nat)
    requires b == a / 512 && c == b / 512 && d == c / 512
    ensures 512 * (512 * (512 * (d % 512) + c % 512) + b % 512) + a % 512 == a % 0x10_0000_0000
  {
    var r := 512 * (512 * (512 * (d % 512) + c % 512) + b % 512) + a % 512;
    assert a == 512 * b + a % 512 && b == 512 * c + b % 512 && c == 512 * d + c % 512 && d == 512 * (d / 512) + d % 512;
    assert a == 0x10_0000_0000 * (d / 512) + r;
    assert 0 <= r < 0x10_0000_0000;
  }

  // ----- the walk -----

  /** What a page is mapped to: the frame, the attribute bits (without `PTE_PS` when it
      marks a 2 MiB mapping), and whether it is part of a 2 MiB mapping. */
  datatype Leaf = Leaf(frame: nat, low: bv12, high: nat, large: bool)

  /** The walk of `virt_to_phys_user` from a table of level l. */
  function Resolve(m: Memory, f: int, l: nat, v: nat): Option<Leaf>
    requires 1 <= l <= 4
    decreases l
  {
    var e := m[f][Index(v, l)];
    if !Present(e) then None
    else if l == 1 then Some(Leaf(e.frame, e.low, e.high, false))
    else if l == 2 && Large(e) then Some(Leaf(e.frame + Index(v, 1), e.low & 0xF7F, e.high, true))
    else Resolve(m, e.frame, l - 1, v)
  }

  // ----- the tree -----

  /** Where a table hangs: its level and the address bits that lead to it. */
  datatype Node = Node(level: nat, prefix: nat)

  /** The entry leads to a table one level down. */
  predicate Inner(e: Entry, l: nat) { Present(e) && !(l == 2 && Large(e)) }

  ghost predicate Child(e: Entry, node: map<nat, Node>, n: Node, i: nat)
    requires n.level >= 1
  {
    e.high == 0 && e.frame in node && node[e.frame] == Node(n.level - 1, 512 * n.prefix + i)
  }

  ghost predicate Downward(m: Memory, node: map<nat, Node>)
  {
    && (forall f {:trigger f in node} :: f in node ==> 1 <= node[f].level <= 4)
    && (forall f, i {:trigger f in node, m[f][i]} ::
         f in node && 0 <= i < 512 && node[f].level > 1 && Inner(m[f][i], node[f].level) ==>
         Child(m[f][i], node, node[f], i))
  }

  /** Table f hangs at entry i of table g. */
  ghost predicate Hangs(m: Memory, node: map<nat, Node>, f: nat, g: nat)
    requires f in node
  {
    && g in node && node[g] == Node(node[f].level + 1, node[f].prefix / 512)
    && Inner(m[g][node[f].prefix % 512], node[g].level) && m[g][node[f].prefix % 512].frame == f
  }

  ghost predicate Upward(m: Memory, node: map<nat, Node>)
  {
    forall f {:trigger f in node} :: f in node && node[f].level < 4 ==> exists g :: Hangs(m, node, f, g)
  }

  ghost predicate Single(node: map<nat, Node>)
  {
    forall f, g {:trigger f in node, g in node} :: f in node && g in node && node[f] == node[g] ==> f == g
  }

  /** The tables form a tree: every table hangs at one entry, every entry above the last
      level leads to the table of its place, and pointers carry no bits above 51. */
  ghost predicate Tree(m: Memory, root: nat, node: map<nat, Node>)
  {
    root in node && node[root] == Node(4, 0) && Downward(m, node) && Upward(m, node) && Single(node)
  }

  /** 2 MiB mappings are 2 MiB aligned. */
  ghost predicate LargeAligned(m: Memory, node: map<nat, Node>)
  {
    forall f, i {:trigger f in node, m[f][i]} ::
      f in node && 0 <= i < 512 && node[f].level == 2 && Present(m[f][i]) && Large(m[f][i]) ==> m[f][i].frame % 512 == 0
  }

  // ----- walks in a tree -----

  /** The walk for v passes through the table of v's prefix. */
  lemma {:induction false} Passes(m: Memory, root: nat, node: map<nat, Node>, f: nat, v: nat)
    requires Tree(m, root, node) && f in node && 1 <= node[f].level <= 4 && node[f].prefix == Prefix(v, node[f].level)
    ensures Resolve(m, root, 4, v) == Resolve(m, f, node[f].level, v)
    decreases 4 - node[f].level
  {
    var l := node[f].level;
    if l == 4 {
      assert node[f] == node[root];
    } else {
      var g :| Hangs(m, node, f, g);
      assert node[f].prefix / 512 == Prefix(v, l + 1) && node[f].prefix % 512 == Index(v, l + 1);
      Passes(m, root, node, g, v);
    }
  }

  /** Memory m' differs from m at most at entry i of table f and in pages that are not
      tables. */
  ghost predicate OnlyAt(m: Memory, m': Memory, node: map<nat, Node>, f: nat, i: nat)
  {
    forall g, j {:trigger g in node, m'[g][j]} :: g in node && 0 <= j < 512 && !(g == f && j == i) ==>
      m'[g][j] == m[g][j]
  }

  /** A walk that does not come to the changed entry is unchanged. */
  lemma {:induction false} Avoids(m: Memory, m': Memory, node: map<nat, Node>, f: nat, i: nat, g: nat, v: nat)
    requires Downward(m, node) && f in node && OnlyAt(m, m', node, f, i)
    requires g in node && node[g].prefix == Prefix(v, node[g].level)
    requires node[g].level < node[f].level
      || !(node[f].prefix == Prefix(v, node[f].level) && Index(v, node[f].level) == i)
    ensures Resolve(m', g, node[g].level, v) == Resolve(m, g, node[g].level, v)
    decreases node[g].level
  {
    var l := node[g].level;
    var e := m[g][Index(v, l)];
    assert m'[g][Index(v, l)] == e;
    if Inner(e, l) && l > 1 {
      assert Child(e, node, node[g], Index(v, l));
      Avoids(m, m', node, f, i, e.frame, v);
    }
  }
}
