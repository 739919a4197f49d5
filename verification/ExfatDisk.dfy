/** A disk as a flat array of bytes, the layout of an exFAT volume on it, and the reads and
    writes of whole sectors through which the driver sees it. */
module ExfatDisk {
  import opened LittleEndian
  import opened RowMajor

  ghost predicate TotalDisk(d: imap<int, Byte>) { forall a: int :: a in d }

  type Disk = d: imap<int, Byte> | TotalDisk(d) ghost witness imap a: int | true :: 0

  // ----- ranges of bytes -----

  function Slice(d: Disk, a: int, n: nat): (s: seq<Byte>)
    ensures |s| == n
  {
    seq(n, (k: nat) => d[a + k])
  }

  function Store(d: Disk, a: int, s: seq<Byte>): Disk
  {
    if s == [] then d else Store(d, a, s[..|s| - 1])[a + |s| - 1 := s[|s| - 1]]
  }

  lemma {:induction false} StoreAt(d: Disk, a: int, s: seq<Byte>, b: int)
    ensures Store(d, a, s)[b] == if a <= b < a + |s| then s[b - a] else d[b]
  {
    if s != [] {
      StoreAt(d, a, s[..|s| - 1], b);
    }
  }

  /** Outside the n bytes from a nothing differs. */
  ghost predicate OnlyIn(d: Disk, d': Disk, a: int, n: nat)
  {
    forall b: int {:trigger d'[b]} :: !(a <= b < a + n) ==> d'[b] == d[b]
  }

  lemma {:induction false} StoreOnly(d: Disk, a: int, s: seq<Byte>)
    ensures OnlyIn(d, Store(d, a, s), a, |s|) && Slice(Store(d, a, s), a, |s|) == s
  {
    forall b: int {:trigger Store(d, a, s)[b]} | !(a <= b < a + |s|) ensures Store(d, a, s)[b] == d[b] {
      StoreAt(d, a, s, b);
    }
    forall k: nat | k < |s| ensures Slice(Store(d, a, s), a, |s|)[k] == s[k] {
      StoreAt(d, a, s, a + k);
    }
  }

  /** A range apart from the changed one reads as before. */
  lemma {:induction false} SliceApart(d: Disk, d': Disk, a: int, n: nat, b: int, m: nat)
    requires OnlyIn(d, d', a, n) && (b + m <= a || a + n <= b)
    ensures Slice(d', b, m) == Slice(d, b, m)
  {
  }

  // ----- sectors -----

  /** `exfat_read_sectors` */
  function ReadSectors(d: Disk, bps: nat, sector: nat, count: nat): (s: seq<Byte>)
    ensures |s| == Rows(count, bps)
  {
    Slice(d, Rows(sector, bps), Rows(count, bps))
  }

  /** `exfat_write_sectors` */
  function WriteSectors(d: Disk, bps: nat, sector: nat, count: nat, buf: seq<Byte>): Disk
    requires Rows(count, bps) <= |buf|
  {
    Store(d, Rows(sector, bps), buf[..Rows(count, bps)])
  }

  function Patched(buf: seq<Byte>, off: nat, s: seq<Byte>): (r: seq<Byte>)
    requires off + |s| <= |buf|
    ensures |r| == |buf|
  {
    buf[..off] + s + buf[off + |s|..]
  }

  lemma {:induction false} PatchedIs(buf: seq<Byte>, off: nat, s: seq<Byte>)
    requires off + |s| <= |buf|
    ensures Patched(buf, off, s)[off..off + |s|] == s
  {
  }

  lemma {:induction false} PatchedElse(buf: seq<Byte>, off: nat, s: seq<Byte>, a: nat, b: nat)
    requires off + |s| <= |buf| && a <= b <= |buf| && (b <= off || off + |s| <= a)
    ensures Patched(buf, off, s)[a..b] == buf[a..b]
  {
  }

  /** Reading sectors, patching some bytes and writing the sectors back stores just those
      bytes. */
  lemma {:induction false} ReadModifyWrite(d: Disk, bps: nat, sector: nat, count: nat, off: nat, s: seq<Byte>)
    requires off + |s| <= Rows(count, bps)
    ensures var d' := WriteSectors(d, bps, sector, count, Patched(ReadSectors(d, bps, sector, count), off, s));
      OnlyIn(d, d', Rows(sector, bps) + off, |s|) && Slice(d', Rows(sector, bps) + off, |s|) == s
  {
    var base, buf := Rows(sector, bps), ReadSectors(d, bps, sector, count);
    var buf' := Patched(buf, off, s);
    var d' := WriteSectors(d, bps, sector, count, buf');
    assert buf'[..|buf|] == buf';
    hide Rows;
    forall b: int {:trigger d'[b]} | !(base + off <= b < base + off + |s|) ensures d'[b] == d[b] {
      StoreAt(d, base, buf', b);
      if base <= b < base + |buf| {
        assert buf[b - base] == d[b];
      }
    }
    forall k: nat | k < |s| ensures Slice(d', base + off, |s|)[k] == s[k] {
      StoreAt(d, base, buf', base + off + k);
    }
  }

  lemma {:induction false} ReadPart(d: Disk, bps: nat, sector: nat, count: nat, off: nat, n: nat)
    requires off + n <= Rows(count, bps)
    ensures ReadSectors(d, bps, sector, count)[off..off + n] == Slice(d, Rows(sector, bps) + off, n)
  {
  }

  // ----- the layout of a volume -----

  /** What `exfat_mount` reads from the boot sector, where the bitmap is, and which slots of
      the root directory hold the entries of the volume itself. */
  datatype Geometry = Geometry(bps: nat, spc: nat, fatOffset: nat, heapOffset: nat, count: nat, bitmap: nat,
    bitmapClusters: nat, system: set<nat>)

  const EOC: nat := 0xFFFF_FFFF

  /** `bytes_per_cluster` */
  function Bpc(g: Geometry): nat { Rows(g.spc, g.bps) }

  /** The FAT lies before the cluster heap and has an entry for every cluster, the bitmap
      has a bit for every cluster, and the numbers are in the ranges of the format. */
  ghost predicate Sane(g: Geometry)
  {
    && g.bps > 0 && g.bps % 32 == 0 && g.spc > 0 && 64 <= Bpc(g) <= 4096
    && Rows(g.fatOffset, g.bps) + 4 * (g.count + 2) <= Rows(g.heapOffset, g.bps)
    && 2 <= g.bitmap && 0 < g.bitmapClusters && g.bitmap + g.bitmapClusters <= g.count + 2
    && g.count <= 8 * Rows(g.bitmapClusters, Bpc(g))
    && g.count + 2 < 0xFFFF_FFF7
  }

  predicate Cluster(g: Geometry, c: nat) { 2 <= c < g.count + 2 }

  function FatBase(g: Geometry): nat { Rows(g.fatOffset, g.bps) }

  /** The address of the first byte of a cluster. */
  function Base(g: Geometry, c: nat): nat
  {
    Rows(g.heapOffset, g.bps) + if c < 2 then 0 else Rows(c - 2, Bpc(g))
  }

  /** `exfat_cluster_to_sector` */
  function ClusterToSector(g: Geometry, c: nat): nat
  {
    if c < 2 then 0 else g.heapOffset + Rows(c - 2, g.spc)
  }

  lemma {:induction false} SectorBase(g: Geometry, c: nat, s: nat)
    requires 2 <= c
    ensures Rows(ClusterToSector(g, c) + s, g.bps) == Base(g, c) + Rows(s, g.bps)
  {
    RowsPlus(g.heapOffset + Rows(c - 2, g.spc), s, g.bps);
    RowsPlus(g.heapOffset, Rows(c - 2, g.spc), g.bps);
    RowsRows(c - 2, g.spc, g.bps);
  }

  /** Cluster 2 is the first of the heap, and each cluster follows the one before it. */
  lemma {:induction false} HeapOrder(g: Geometry, c: nat)
    requires 2 <= c
    ensures Base(g, 2) == g.heapOffset * g.bps && Base(g, c + 1) == Base(g, c) + g.spc * g.bps
    ensures FatBase(g) == g.fatOffset * g.bps
  {
    Product(g.heapOffset, g.bps);
    Product(g.fatOffset, g.bps);
    Product(g.spc, g.bps);
    RowsNext(c - 2, Bpc(g));
    RowsOne(Bpc(g));
  }

  /** Different clusters do not overlap. */
  lemma {:induction false} ClustersApart(g: Geometry, c: nat, e: nat)
    requires 2 <= c < e
    ensures Base(g, c) + Bpc(g) <= Base(g, e)
  {
    RowsMonotone(c - 2, e - 2, Bpc(g));
  }

  /** The FAT entry of cluster c. */
  function FatAt(d: Disk, g: Geometry, c: nat): nat
  {
    LeGet(Slice(d, FatBase(g) + 4 * c, 4))
  }

  function FatSector(g: Geometry, c: nat): nat
    requires g.bps > 0
  {
    g.fatOffset + RowOf(4 * c, g.bps)
  }

  function FatByte(g: Geometry, c: nat): nat
    requires g.bps > 0
  {
    ColOf(4 * c, g.bps)
  }

  lemma {:induction false} Quarter(n: nat)
    requires n % 32 == 0
    ensures n % 4 == 0
  {
    assert n == 4 * (8 * (n / 32));
  }

  /** An entry lies within one sector. */
  lemma {:induction false} FatPlace(g: Geometry, c: nat)
    requires g.bps > 0 && g.bps % 32 == 0
    ensures Rows(FatSector(g, c), g.bps) + FatByte(g, c) == FatBase(g) + 4 * c
    ensures FatByte(g, c) + 4 <= g.bps == Rows(1, g.bps)
  {
    assert 4 * c % 4 == 0;
    Quarter(g.bps);
    FieldInRow(4 * c, g.bps, 4);
    RowsPlus(g.fatOffset, RowOf(4 * c, g.bps), g.bps);
    hide Rows, RowOf, ColOf;
  }

  // ----- the allocation bitmap -----

  /** The address of byte j of the bitmap. */
  function BitmapByte(g: Geometry, j: nat): nat
  {
    Base(g, g.bitmap) + j
  }

  /** Byte i of bitmap cluster k is byte k * bpc + i of the bitmap. */
  lemma {:induction false} BitmapCluster(g: Geometry, k: nat, i: nat)
    requires 2 <= g.bitmap
    ensures Base(g, g.bitmap + k) + i == BitmapByte(g, At(i, k, Bpc(g)))
  {
    RowsPlus(g.bitmap - 2, k, Bpc(g));
  }

  /** The bytes of the bitmap lie in its clusters. */
  lemma {:induction false} BitmapInside(g: Geometry, j: nat)
    requires 2 <= g.bitmap && j < Rows(g.bitmapClusters, Bpc(g)) && Bpc(g) > 0
    ensures var k := RowOf(j, Bpc(g));
      k < g.bitmapClusters && Base(g, g.bitmap + k) <= BitmapByte(g, j) < Base(g, g.bitmap + k) + Bpc(g)
  {
    Split(j, Bpc(g), g.bitmapClusters);
    BitmapCluster(g, RowOf(j, Bpc(g)), ColOf(j, Bpc(g)));
  }
}
