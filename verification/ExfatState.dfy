/** What the bytes of a volume mean: cluster chains, file contents and the bitmap, and
    which changes to the disk leave them alone. */
module ExfatState {
  import opened Shifts
  import opened Bits
  import opened LittleEndian
  import opened RowMajor
  import opened ExfatDisk

  // ----- changes by region -----

  /** FAT entries of clusters outside X are as they were. */
  ghost predicate FatKept(d: Disk, d': Disk, g: Geometry, X: set<nat>)
  {
    forall c: nat {:trigger FatAt(d', g, c)} :: Cluster(g, c) && c !in X ==> FatAt(d', g, c) == FatAt(d, g, c)
  }

  /** Byte i of cluster c. */
  function DataAt(d: Disk, g: Geometry, c: nat, i: nat): Byte
  {
    d[Base(g, c) + i]
  }

  ghost predicate SameData(d: Disk, d': Disk, g: Geometry, c: nat)
  {
    forall i: nat {:trigger DataAt(d', g, c, i)} :: i < Bpc(g) ==> DataAt(d', g, c, i) == DataAt(d, g, c, i)
  }

  /** Clusters outside X hold what they held. */
  ghost predicate DataKept(d: Disk, d': Disk, g: Geometry, X: set<nat>)
  {
    forall c: nat {:trigger SameData(d, d', g, c)} :: Cluster(g, c) && c !in X ==> SameData(d, d', g, c)
  }

  /** A change inside the FAT entry of cluster c. */
  lemma {:induction false} FatChange(d: Disk, d': Disk, g: Geometry, c: nat)
    requires Sane(g) && Cluster(g, c) && OnlyIn(d, d', FatBase(g) + 4 * c, 4)
    ensures FatKept(d, d', g, {c}) && DataKept(d, d', g, {})
  {
    forall e: nat {:trigger FatAt(d', g, e)} | Cluster(g, e) && e !in {c} ensures FatAt(d', g, e) == FatAt(d, g, e) {
      SliceApart(d, d', FatBase(g) + 4 * c, 4, FatBase(g) + 4 * e, 4);
    }
  }

  /** A change inside cluster c. */
  lemma {:induction false} DataChange(d: Disk, d': Disk, g: Geometry, c: nat, off: nat, n: nat)
    requires Sane(g) && 2 <= c && off + n <= Bpc(g) && OnlyIn(d, d', Base(g, c) + off, n)
    ensures FatKept(d, d', g, {}) && DataKept(d, d', g, {c})
  {
    forall e: nat {:trigger FatAt(d', g, e)} | Cluster(g, e) && e !in {} ensures FatAt(d', g, e) == FatAt(d, g, e) {
      SliceApart(d, d', Base(g, c) + off, n, FatBase(g) + 4 * e, 4);
    }
    forall e: nat {:trigger SameData(d, d', g, e)} | Cluster(g, e) && e !in {c} ensures SameData(d, d', g, e) {
      if e < c {
        ClustersApart(g, e, c);
      } else {
        ClustersApart(g, c, e);
      }
    }
  }

  lemma {:induction false} FatKeptTrans(d: Disk, d1: Disk, d2: Disk, g: Geometry, X: set<nat>, Y: set<nat>)
    requires FatKept(d, d1, g, X) && FatKept(d1, d2, g, Y)
    ensures FatKept(d, d2, g, X + Y)
  {
    forall c: nat {:trigger FatAt(d2, g, c)} | Cluster(g, c) && c !in X + Y ensures FatAt(d2, g, c) == FatAt(d, g, c) {
      assert FatAt(d1, g, c) == FatAt(d, g, c);
    }
  }

  lemma {:induction false} DataKeptTrans(d: Disk, d1: Disk, d2: Disk, g: Geometry, X: set<nat>, Y: set<nat>)
    requires DataKept(d, d1, g, X) && DataKept(d1, d2, g, Y)
    ensures DataKept(d, d2, g, X + Y)
  {
    forall c: nat {:trigger SameData(d, d2, g, c)} | Cluster(g, c) && c !in X + Y ensures SameData(d, d2, g, c) {
      assert SameData(d, d1, g, c) && SameData(d1, d2, g, c);
      forall i: nat {:trigger DataAt(d2, g, c, i)} | i < Bpc(g) ensures DataAt(d2, g, c, i) == DataAt(d, g, c, i) {
        assert DataAt(d1, g, c, i) == DataAt(d, g, c, i);
      }
    }
  }

  lemma {:induction false} KeptMore(d: Disk, d': Disk, g: Geometry, X: set<nat>, Y: set<nat>)
    requires X <= Y
    ensures FatKept(d, d', g, X) ==> FatKept(d, d', g, Y)
    ensures DataKept(d, d', g, X) ==> DataKept(d, d', g, Y)
  {
  }

  // ----- files -----

  /** A file: its clusters in order, whether the FAT links them, and its bytes. */
  datatype Meta = Meta(chain: seq<nat>, linked: bool, content: seq<Byte>)

  ghost predicate Chained(d: Disk, g: Geometry, chain: seq<nat>)
  {
    && (forall k {:trigger chain[k]} :: 0 <= k < |chain| - 1 ==> FatAt(d, g, chain[k]) == chain[k + 1])
    && (chain != [] ==> FatAt(d, g, chain[|chain| - 1]) == EOC)
  }

  ghost predicate Contiguous(chain: seq<nat>)
  {
    forall k {:trigger chain[k]} :: 0 <= k < |chain| ==> chain[k] == chain[0] + k
  }

  /** The cluster walk has no repeats. */
  ghost predicate Proper(g: Geometry, chain: seq<nat>)
  {
    && (forall k {:trigger chain[k]} :: 0 <= k < |chain| ==> Cluster(g, chain[k]))
    && (forall j, k {:trigger chain[j], chain[k]} :: 0 <= j < k < |chain| ==> chain[j] != chain[k])
  }

  ghost predicate Linked(d: Disk, g: Geometry, chain: seq<nat>, linked: bool)
  {
    if linked then Chained(d, g, chain) else Contiguous(chain)
  }

  /** The clusters hold the bytes in order. */
  ghost predicate Holds(d: Disk, g: Geometry, chain: seq<nat>, content: seq<Byte>)
  {
    forall k: nat, i: nat {:trigger DataAt(d, g, chain[k], i)} {:trigger content[At(i, k, Bpc(g))]} ::
      k < |chain| && i < Bpc(g) && At(i, k, Bpc(g)) < |content| ==>
        DataAt(d, g, chain[k], i) == content[At(i, k, Bpc(g))]
  }

  /** As many clusters as the bytes need. */
  predicate Sized(g: Geometry, chain: seq<nat>, size: nat)
  {
    if chain == [] then size == 0 else Rows(|chain| - 1, Bpc(g)) < size <= Rows(|chain|, Bpc(g))
  }

  ghost predicate MetaSound(d: Disk, g: Geometry, m: Meta)
  {
    Proper(g, m.chain) && Linked(d, g, m.chain, m.linked) && Sized(g, m.chain, |m.content|)
      && Holds(d, g, m.chain, m.content)
  }

  lemma {:induction false} LinkedFrame(d: Disk, d': Disk, g: Geometry, chain: seq<nat>, linked: bool, X: set<nat>)
    requires Proper(g, chain) && Linked(d, g, chain, linked) && FatKept(d, d', g, X) && forall k ::
      0 <= k < |chain| ==> chain[k] !in X
    ensures Linked(d', g, chain, linked)
  {
    forall k {:trigger chain[k]} | 0 <= k < |chain| ensures FatAt(d', g, chain[k]) == FatAt(d, g, chain[k]) {
    }
  }

  lemma {:induction false} HoldsFrame(d: Disk, d': Disk, g: Geometry, chain: seq<nat>, content: seq<Byte>, X: set<nat>)
    requires Proper(g, chain) && Holds(d, g, chain, content) && DataKept(d, d', g, X) && forall k ::
      0 <= k < |chain| ==> chain[k] !in X
    ensures Holds(d', g, chain, content)
  {
    forall k: nat, i: nat {:trigger DataAt(d', g, chain[k], i)} {:trigger content[At(i, k, Bpc(g))]} | k < |chain|
      && i < Bpc(g) && At(i, k, Bpc(g)) < |content|
      ensures DataAt(d', g, chain[k], i) == content[At(i, k, Bpc(g))]
    {
      assert SameData(d, d', g, chain[k]);
    }
  }

  lemma {:induction false} MetaFrame(d: Disk, d': Disk, g: Geometry, m: Meta, X: set<nat>)
    requires MetaSound(d, g, m) && FatKept(d, d', g, X) && DataKept(d, d', g, X) && forall k :: 0 <= k < |m.chain| ==>
      m.chain[k] !in X
    ensures MetaSound(d', g, m)
  {
    LinkedFrame(d, d', g, m.chain, m.linked, X);
    HoldsFrame(d, d', g, m.chain, m.content, X);
  }

  /** A number of bytes determines the number of clusters: ceil(size / bpc). */
  lemma {:induction false} SizedCount(g: Geometry, chain: seq<nat>, size: nat)
    requires Sized(g, chain, size) && Bpc(g) > 0
    ensures RowOf(size + Bpc(g) - 1, Bpc(g)) == |chain|
  {
    var b := Bpc(g);
    if chain == [] {
      SplitUnique(b - 1, b - 1, 0, b);
    } else {
      RowsNext(|chain| - 1, b);
      var x := size - Rows(|chain| - 1, b) - 1;
      assert size + b - 1 == At(x, |chain|, b);
      SplitUnique(size + b - 1, x, |chain|, b);
    }
  }

  // ----- growing a file -----

  /** Linking a new last cluster. */
  lemma {:induction false} ChainGrows(d: Disk, d': Disk, g: Geometry, chain: seq<nat>, c: nat)
    requires Proper(g, chain) && chain != [] && Chained(d, g, chain) && Cluster(g, c) && c !in chain
    requires FatKept(d, d', g, {chain[|chain| - 1], c}) && FatAt(d', g, chain[|chain| - 1]) == c
      && FatAt(d', g, c) == EOC
    ensures Proper(g, chain + [c]) && Chained(d', g, chain + [c])
  {
    var longer := chain + [c];
    forall k {:trigger longer[k]} | 0 <= k < |longer| - 1 ensures FatAt(d', g, longer[k]) == longer[k + 1] {
      if k < |chain| - 1 {
        assert chain[k] != chain[|chain| - 1] && chain[k] in chain;
        assert FatAt(d, g, chain[k]) == chain[k + 1];
      }
    }
  }

  lemma {:induction false} RunGrows(g: Geometry, chain: seq<nat>, c: nat)
    requires Proper(g, chain) && Contiguous(chain) && Cluster(g, c) && c !in chain
      && (chain == [] || c == chain[|chain| - 1] + 1)
    ensures Proper(g, chain + [c]) && Contiguous(chain + [c])
  {
  }

  /** A new last cluster holds nothing yet. */
  lemma {:induction false} HoldsGrows(d: Disk, g: Geometry, chain: seq<nat>, c: nat, content: seq<Byte>)
    requires Proper(g, chain) && Proper(g, chain + [c]) && Holds(d, g, chain, content)
      && |content| <= Rows(|chain|, Bpc(g))
    ensures Holds(d, g, chain + [c], content)
  {
    var longer := chain + [c];
    forall k: nat, i: nat {:trigger DataAt(d, g, longer[k], i)} {:trigger content[At(i, k, Bpc(g))]} | k < |longer|
      && i < Bpc(g) && At(i, k, Bpc(g)) < |content|
      ensures DataAt(d, g, longer[k], i) == content[At(i, k, Bpc(g))]
    {
      assert k != |chain|;
      assert longer[k] == chain[k];
    }
  }

  /** Bytes written at the end of the last cluster extend the content. */
  lemma {:induction false} HoldsMore(d: Disk, d': Disk, g: Geometry, chain: seq<nat>, content: seq<Byte>, off: nat,
      s: seq<Byte>)
    requires Proper(g, chain) && chain != [] && Holds(d, g, chain, content) && off + |s| <= Bpc(g)
    requires |content| == At(off, |chain| - 1, Bpc(g))
    requires OnlyIn(d, d', Base(g, chain[|chain| - 1]) + off, |s|)
      && Slice(d', Base(g, chain[|chain| - 1]) + off, |s|) == s
    ensures Holds(d', g, chain, content + s)
  {
    var last, b, more := |chain| - 1, Bpc(g), content + s;
    forall k: nat, i: nat {:trigger DataAt(d', g, chain[k], i)} {:trigger more[At(i, k, b)]} | k < |chain| && i < b
      && At(i, k, b) < |more|
      ensures DataAt(d', g, chain[k], i) == more[At(i, k, b)]
    {
      if k == last {
        SameRow(i, off, k, b);
        if i >= off {
          assert Slice(d', Base(g, chain[last]) + off, |s|)[i - off] == DataAt(d', g, chain[last], i);
        } else {
          assert content[At(i, k, b)] == DataAt(d, g, chain[k], i);
        }
      } else {
        OtherCluster(d, d', g, chain, off, |s|, k, i);
        EarlierRow(i, k, off, last, b);
        assert content[At(i, k, b)] == DataAt(d, g, chain[k], i);
      }
    }
  }

  lemma {:induction false} SameRow(i: nat, j: nat, k: nat, b: nat)
    ensures At(i, k, b) - At(j, k, b) == i - j
  {
  }

  lemma {:induction false} EarlierRow(i: nat, k: nat, j: nat, l: nat, b: nat)
    requires i < b && k < l
    ensures At(i, k, b) < At(j, l, b)
  {
    RowsMonotone(k, l, b);
  }

  lemma {:induction false} OtherCluster(d: Disk, d': Disk, g: Geometry, chain: seq<nat>, off: nat, n: nat, k: nat,
      i: nat)
    requires Proper(g, chain) && k < |chain| - 1 && i < Bpc(g) && off + n <= Bpc(g)
      && OnlyIn(d, d', Base(g, chain[|chain| - 1]) + off, n)
    ensures DataAt(d', g, chain[k], i) == DataAt(d, g, chain[k], i)
  {
    var a, e := chain[k], chain[|chain| - 1];
    if a < e {
      ClustersApart(g, a, e);
    } else {
      ClustersApart(g, e, a);
    }
  }
}
