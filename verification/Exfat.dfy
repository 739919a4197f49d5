/** The exFAT driver: allocation, appending, reading and removing files. */
module Exfat {
  import opened Shifts
  import opened Bits
  import opened LittleEndian
  import opened RowMajor
  import opened ExfatDisk
  import opened ExfatState
  import opened ExfatVolume

  /** The clusters in use. */
  ghost function Used(reserved: set<nat>, owner: map<nat, nat>): set<nat> { reserved + owner.Keys }

  /** A lowest cluster that is not in use. */
  ghost predicate LowestFree(g: Geometry, used: set<nat>, c: nat)
  {
    Cluster(g, c) && c !in used && forall x: nat :: Cluster(g, x) && x < c ==> x in used
  }

  class Volume {
    const g: Geometry
    var disk: Disk
    ghost const reserved: set<nat>
    ghost const dir: seq<nat>
    const root: nat

    constructor (geometry: Geometry, d: Disk, rootCluster: nat, ghost r: set<nat>, ghost chain: seq<nat>)
      requires chain != [] && chain[0] == rootCluster
      ensures g == geometry && disk == d && root == rootCluster && reserved == r && dir == chain
    {
      g, disk, root, reserved, dir := geometry, d, rootCluster, r, chain;
    }

    /** The system's clusters are in order and the bits are those of the clusters in use. */
    ghost predicate Core(used: set<nat>)
      reads this
    {
      && Sane(g) && System(disk, g, reserved, dir) && dir != [] && dir[0] == root && Epc(g) > 0
      && Marked(disk, g, used) && reserved <= used
    }

    /** `exfat_get_fat_entry` */
    method GetFatEntry(c: nat) returns (v: nat)
      requires Sane(g)
      ensures v == FatAt(disk, g, c)
    {
      FatPlace(g, c);
      ReadPart(disk, g.bps, FatSector(g, c), 1, FatByte(g, c), 4);
      var buf := ReadSectors(disk, g.bps, FatSector(g, c), 1);
      v := LeGet(buf[FatByte(g, c)..FatByte(g, c) + 4]);
    }

    /** `exfat_set_fat_entry` */
    method SetFatEntry(c: nat, v: nat)
      requires Sane(g) && Cluster(g, c) && v < 0x1_0000_0000
      modifies this`disk
      ensures FatAt(disk, g, c) == v && FatKept(old(disk), disk, g, {c}) && DataKept(old(disk), disk, g, {})
    {
      hide Rows, LePut, LeGet, FitsIn, FatSector, FatByte, FatBase, Slice, FatKept, DataKept;
      FatPlace(g, c);
      FitsFour(v);
      LeRoundTrip(v, 4);
      ReadModifyWrite(disk, g.bps, FatSector(g, c), 1, FatByte(g, c), LePut(v, 4));
      var buf := ReadSectors(disk, g.bps, FatSector(g, c), 1);
      disk := WriteSectors(disk, g.bps, FatSector(g, c), 1, Patched(buf, FatByte(g, c), LePut(v, 4)));
      FatChange(old(disk), disk, g, c);
    }

    /** Reading a whole cluster. */
    method ReadCluster(c: nat) returns (buf: seq<Byte>)
      requires 2 <= c
      ensures |buf| == Bpc(g) && forall i: nat {:trigger buf[i]} :: i < Bpc(g) ==> buf[i] == DataAt(disk, g, c, i)
    {
      SectorBase(g, c, 0);
      buf := ReadSectors(disk, g.bps, ClusterToSector(g, c), g.spc);
    }

    /** Writing bytes into a cluster through the cluster buffer, which is read first unless
        the bytes fill it. */
    method WriteBytes(c: nat, off: nat, s: seq<Byte>, scratch: seq<Byte>)
      requires 2 <= c && off + |s| <= Bpc(g) == |scratch|
      modifies this`disk
      ensures OnlyIn(old(disk), disk, Base(g, c) + off, |s|) && Slice(disk, Base(g, c) + off, |s|) == s
    {
      SectorBase(g, c, 0);
      RowsOne(g.bps);
      hide Rows, Base, Slice, OnlyIn, ClusterToSector, ReadSectors, WriteSectors, Patched;
      var sector := ClusterToSector(g, c);
      var buf := if |s| < |scratch| then ReadSectors(disk, g.bps, sector, g.spc) else scratch;
      WholeOrModified(disk, g.bps, sector, g.spc, off, s, scratch, buf);
      disk := WriteSectors(disk, g.bps, sector, g.spc, Patched(buf, off, s));
    }

    /** The scan of `exfat_allocate_cluster` for the lowest clear bit. */
    method FindClear() returns (found: bool, k: nat, i: nat, bit: nat)
      requires Sane(g) && System(disk, g, reserved, dir)
      ensures found ==> k < g.bitmapClusters && i < Bpc(g) && bit < 8 && !Bit(DataAt(disk, g, g.bitmap + k, i), bit)
      ensures found ==> forall y: nat {:trigger BitIx(disk, g, y)} :: y < 8 * (Rows(k, Bpc(g)) + i) + bit ==>
        BitIx(disk, g, y)
      ensures !found ==> forall y: nat {:trigger BitIx(disk, g, y)} :: y < 8 * Rows(g.bitmapClusters, Bpc(g)) ==>
        BitIx(disk, g, y)
    {
      hide Rows, BitIx, Bpc, Base, System, Sane, FatAt;
      BitmapStart(disk, g, reserved, dir);
      var curr := g.bitmap;
      k := 0;
      RowsZero(Bpc(g));
      while curr < EOC
        invariant k <= g.bitmapClusters && curr == if k < g.bitmapClusters then g.bitmap + k else EOC
        invariant forall y: nat {:trigger BitIx(disk, g, y)} :: y < 8 * Rows(k, Bpc(g)) ==> BitIx(disk, g, y)
        decreases g.bitmapClusters - k
      {
        found, i, bit := ScanCluster(curr, k);
        if found {
          return;
        }
        BitmapNext(disk, g, reserved, dir, k);
        curr := GetFatEntry(curr);
        RowsNext(k, Bpc(g));
        k := k + 1;
      }
      return false, 0, 0, 0;
    }

    /** The scan of one bitmap cluster. */
    method ScanCluster(curr: nat, k: nat) returns (found: bool, i: nat, bit: nat)
      requires Sane(g) && curr == g.bitmap + k
      requires forall y: nat {:trigger BitIx(disk, g, y)} :: y < 8 * Rows(k, Bpc(g)) ==> BitIx(disk, g, y)
      ensures found ==> i < Bpc(g) && bit < 8 && !Bit(DataAt(disk, g, curr, i), bit)
      ensures found ==> forall y: nat {:trigger BitIx(disk, g, y)} :: y < 8 * (Rows(k, Bpc(g)) + i) + bit ==>
        BitIx(disk, g, y)
      ensures !found ==> forall y: nat {:trigger BitIx(disk, g, y)} :: y < 8 * (Rows(k, Bpc(g)) + Bpc(g)) ==>
        BitIx(disk, g, y)
    {
      hide Rows, BitIx, Bpc, Base;
      var buf := ReadCluster(curr);
      i := 0;
      while i < Bpc(g)
        invariant i <= Bpc(g)
        invariant forall y: nat {:trigger BitIx(disk, g, y)} :: y < 8 * (Rows(k, Bpc(g)) + i) ==> BitIx(disk, g, y)
      {
        if buf[i] != 0xFF {
          bit := 0;
          while bit < 8
            invariant bit <= 8
            invariant forall y: nat {:trigger BitIx(disk, g, y)} :: y < 8 * (Rows(k, Bpc(g)) + i) + bit ==>
              BitIx(disk, g, y)
          {
            if !Bit(buf[i], bit) {
              return true, i, bit;
            }
            BitOfByte(disk, g, k, i, bit);
            bit := bit + 1;
          }
        } else {
          FullByte(disk, g, k, i);
        }
        i := i + 1;
      }
      return false, 0, 0;
    }

    /** `exfat_allocate_cluster`: the lowest free cluster, marked in the bitmap and ended
        in the FAT; failure means that every cluster is in use. */
    method AllocateCluster(ghost used: set<nat>) returns (ok: bool, c: nat)
      requires Core(used)
      modifies this`disk
      ensures !ok ==> disk == old(disk) && forall x: nat :: Cluster(g, x) ==> x in used
      ensures ok ==> LowestFree(g, used, c) && Core(used + {c}) && FatAt(disk, g, c) == EOC
      ensures ok ==>
        FatKept(old(disk), disk, g, {c}) && DataKept(old(disk), disk, g, reserved)
        && SlotsKept(old(disk), disk, g, dir, {})
    {
      hide Sane, System, Marked, Base, Bpc, Rows, FatKept, DataKept, BitIx, BitAt, SlotsKept, LowestFree;
      var found, k, i, bit := FindClear();
      if !found {
        AllTaken(disk, g, used);
        return false, 0;
      }
      c := 8 * (Rows(k, Bpc(g)) + i) + bit + 2;
      ThatBit(disk, g, used, k, i, bit);
      if c - 2 >= g.count {
        return false, 0;
      }
      MarkBit(g.bitmap + k, k, i, bit, used);
      ghost var d1 := disk;
      EocFits();
      SetFatEntry(c, EOC);
      FreshEntry(old(disk), d1, disk, g, reserved, dir, used, c);
      ok := true;
    }

    /** The write of `exfat_allocate_cluster`: the cluster buffer with one more bit set,
        of which only the sector with that bit is written. */
    method MarkBit(curr: nat, k: nat, i: nat, bit: nat, ghost used: set<nat>)
      requires Sane(g) && System(disk, g, reserved, dir) && Marked(disk, g, used) && Epc(g) > 0
      requires curr == g.bitmap + k && k < g.bitmapClusters && i < Bpc(g) && bit < 8
        && 8 * (Rows(k, Bpc(g)) + i) + bit < g.count
      modifies this`disk
      ensures FatKept(old(disk), disk, g, {}) && DataKept(old(disk), disk, g, {curr})
        && Marked(disk, g, used + {8 * (Rows(k, Bpc(g)) + i) + bit + 2})
    {
      hide Base, Rows, System, Marked, FatKept, DataKept, RowOf;
      var buf := ReadCluster(curr);
      SetByteFits(buf[i], bit);
      var s := RowOf(i, g.bps);
      OneSector(disk, g, curr, i, buf, SetBit(buf[i], bit));
      disk := WriteSectors(disk, g.bps, ClusterToSector(g, curr) + s, 1,
        buf[i := SetBit(buf[i], bit)][Rows(s, g.bps)..]);
      BitWritten(old(disk), disk, g, k, i, bit, used, true);
    }

    /** The walk of `exfat_read_dir_entry` and `exfat_write_dir_entry`: along the FAT to the
        cluster of an entry. */
    method DirWalk(index: nat) returns (ok: bool, cluster: nat, off: nat)
      requires Sane(g) && System(disk, g, reserved, dir) && dir[0] == root && Epc(g) > 0
      ensures ok <==> HasSlot(g, dir, index)
      ensures ok ==> RowOf(index, Epc(g)) < |dir| && cluster == dir[RowOf(index, Epc(g))] && off == ColOf(index, Epc(g))
    {
      hide Sane, Rows, At, RowOf, ColOf, Epc;
      ghost var h := 0;
      cluster, off := root, index;
      RowsZero(Epc(g));
      while off >= Epc(g)
        invariant h < |dir| && cluster == dir[h] && index == Rows(h, Epc(g)) + off
      {
        off := off - Epc(g);
        assert FatAt(disk, g, dir[h]) == if h < |dir| - 1 then dir[h + 1] else EOC;
        cluster := GetFatEntry(cluster);
        RowsNext(h, Epc(g));
        if cluster >= EOC {
          DirEnds(disk, g, dir, h, index);
          return false, 0, 0;
        }
        h := h + 1;
      }
      DirPlace(g, dir, h, index, off);
      return true, cluster, off;
    }

    /** `exfat_read_dir_entry` */
    method ReadDirEntry(index: nat) returns (ok: bool, e: seq<Byte>)
      requires Sane(g) && System(disk, g, reserved, dir) && dir[0] == root && Epc(g) > 0
      ensures ok <==> HasSlot(g, dir, index)
      ensures ok ==> e == Slot(disk, g, dir, index)
    {
      hide System, Base, Rows, At, RowOf, ColOf, Epc;
      var cluster, off;
      ok, cluster, off := DirWalk(index);
      if !ok {
        return false, [];
      }
      DirProper(disk, g, reserved, dir);
      SlotSector(g, dir, index);
      var sector, x := ClusterToSector(g, cluster) + RowOf(32 * off, g.bps), ColOf(32 * off, g.bps);
      ReadPart(disk, g.bps, sector, 1, x, 32);
      e := ReadSectors(disk, g.bps, sector, 1)[x..x + 32];
    }

    /** `exfat_write_dir_entry` */
    method WriteDirEntry(index: nat, e: seq<Byte>) returns (ok: bool)
      requires Sane(g) && System(disk, g, reserved, dir) && dir[0] == root && Epc(g) > 0 && |e| == 32
      modifies this`disk
      ensures ok <==> HasSlot(g, dir, index)
      ensures !ok ==> disk == old(disk)
      ensures ok ==> Slot(disk, g, dir, index) == e && OnlyIn(old(disk), disk, SlotAt(g, dir, index), 32)
    {
      hide System, Base, Rows, At, RowOf, ColOf, Epc;
      var cluster, off;
      ok, cluster, off := DirWalk(index);
      if !ok {
        return false;
      }
      DirProper(disk, g, reserved, dir);
      SlotSector(g, dir, index);
      var sector, x := ClusterToSector(g, cluster) + RowOf(32 * off, g.bps), ColOf(32 * off, g.bps);
      ReadModifyWrite(disk, g.bps, sector, 1, x, e);
      disk := WriteSectors(disk, g.bps, sector, 1, Patched(ReadSectors(disk, g.bps, sector, 1), x, e));
    }

    /** `exfat_update_bitmap` for a cluster that becomes free. */
    method ClearMark(c: nat, ghost used: set<nat>)
      requires Core(used) && Cluster(g, c) && c !in reserved
      modifies this`disk
      ensures Core(used - {c}) && FatKept(old(disk), disk, g, {}) && DataKept(old(disk), disk, g, reserved)
        && SlotsKept(old(disk), disk, g, dir, {})
    {
      hide Sane, System, Marked, FatKept, DataKept, SlotsKept, Rows, RowOf, ColOf, Base, BitmapByte, Bpc, Epc;
      var j, bit := (c - 2) / 8, (c - 2) % 8;
      BitmapSector(g, c);
      var sector, x := ClusterToSector(g, g.bitmap) + RowOf(j, g.bps), ColOf(j, g.bps);
      var buf := ReadSectors(disk, g.bps, sector, 1);
      SetByteFits(buf[x], bit);
      ReadPart(disk, g.bps, sector, 1, x, 1);
      assert buf[x] == buf[x..x + 1][0] == disk[BitmapByte(g, j)];
      ReadModifyWrite(disk, g.bps, sector, 1, x, [ClearBit(buf[x], bit)]);
      disk := WriteSectors(disk, g.bps, sector, 1, Patched(buf, x, [ClearBit(buf[x], bit)]));
      assert disk[BitmapByte(g, j)] == Slice(disk, BitmapByte(g, j), 1)[0];
      MarkCleared(old(disk), disk, g, reserved, dir, used, c);
    }

    /** `exfat_free_chain`: exactly the clusters of the file become free. */
    method FreeChain(first: nat, contiguous: bool, size: nat, ghost used: set<nat>, ghost chain: seq<nat>)
      requires Core(used) && ExfatState.Proper(g, chain) && Linked(disk, g, chain, !contiguous) && Sized(g, chain, size)
      requires first == (if chain == [] then 0 else chain[0]) && forall k :: 0 <= k < |chain| ==> chain[k] !in reserved
      modifies this`disk
      ensures Core(used - Elements(chain)) && Effect(old(disk), disk, g, reserved, dir, Elements(chain), {})
    {
      hide Sane, System, Marked, FatKept, DataKept, SlotsKept, Bpc, Epc, Linked, Effect, Rows, RowOf, Sized;
      EffectNone(disk, g, reserved, dir, {}, {});
      NoElements(chain);
      assert used - {} == used;
      if first < 2 {
        NoChain(g, chain);
        return;
      }
      BpcThere(g);
      SizedCount(g, chain, size);
      var count := RowOf(size + Bpc(g) - 1, Bpc(g));
      var curr, i := first, 0;
      while i < count
        invariant i < |chain| && curr == chain[i] && Core(used - Elements(chain[..i]))
        invariant Effect(old(disk), disk, g, reserved, dir, Elements(chain[..i]), {})
        decreases count - i
      {
        NextOf(old(disk), disk, g, reserved, dir, chain, i, !contiguous);
        var next;
        if contiguous {
          next := curr + 1;
        } else {
          next := GetFatEntry(curr);
        }
        ghost var d := disk;
        FreeOne(curr, used - Elements(chain[..i]));
        FreedOne(old(disk), d, disk, g, reserved, dir, used, chain, i);
        if contiguous {
          if i + 1 >= count {
            break;
          }
        } else {
          if next >= EOC {
            break;
          }
        }
        curr := next;
        i := i + 1;
      }
      assert chain[..|chain|] == chain;
    }

    /** The freeing of one cluster. */
    method FreeOne(c: nat, ghost used: set<nat>)
      requires Core(used) && Cluster(g, c) && c !in reserved
      modifies this`disk
      ensures Core(used - {c}) && Effect(old(disk), disk, g, reserved, dir, {c}, {})
    {
      hide Sane, System, Marked, FatKept, DataKept, SlotsKept, Epc, Effect;
      SetFatEntry(c, 0);
      ghost var d1 := disk;
      EntryFreed(old(disk), d1, g, reserved, dir, used, c);
      ClearMark(c, used);
      TwoSteps(old(disk), d1, disk, g, reserved, dir, c);
    }

    /** The loop of `exfat_update_checksum` over the bytes of one entry. */
    method MixEntry(start: nat, e: seq<Byte>, first: bool, ghost before: seq<Byte>) returns (sum: nat)
      requires |e| == 32 && |before| % 32 == 0 && (first <==> before == []) && start == SetChecksum(before, |before|)
      ensures sum == SetChecksum(before + e, |before| + 32)
    {
      sum := start;
      ChecksumPrefix(before, before + e, |before|);
      for j := 0 to 32
        invariant sum == SetChecksum(before + e, |before| + j)
      {
        if !(first && (j == 2 || j == 3)) {
          sum := Mix(sum, e[j]);
        }
      }
    }

    /** `exfat_update_checksum`: the file entry at index gets the checksum of its entry set. */
    method UpdateChecksum(index: nat, ghost used: set<nat>) returns (ok: bool)
      requires Core(used) && HasSlot(g, dir, index)
      modifies this`disk
      ensures Core(used) && FatKept(old(disk), disk, g, {}) && DataKept(old(disk), disk, g, reserved)
        && SlotsKept(old(disk), disk, g, dir, {index})
      ensures ChecksumRight(disk, g, dir, index)
      ensures SameButSum(Slot(old(disk), g, dir, index), Slot(disk, g, dir, index))
    {
      hide Sane, System, Marked, FatKept, DataKept, Mix, EntrySet, HasSlot, SlotAt, Epc, SlotsKept;
      DirProper(disk, g, reserved, dir);
      NothingKept(disk, g, dir, reserved);
      var file, e;
      ok, file := ReadDirEntry(index);
      var count := EntryCount(file);
      var sum := 0;
      EmptySet(disk, g, dir, index);
      for i := 0 to count
        invariant disk == old(disk) && (i > 0 ==> HasSlot(g, dir, index + i - 1))
        invariant sum == SetChecksum(EntrySet(disk, g, dir, index, i), 32 * i)
      {
        ok, e := ReadDirEntry(index + i);
        if !ok {
          SlotsDown(g, dir, index + i, index + count - 1);
          assert ChecksumRight(disk, g, dir, index);
          return;
        }
        ghost var before := EntrySet(disk, g, dir, index, i);
        NextSet(disk, g, dir, index, i);
        sum := MixEntry(sum, e, i == 0, before);
      }
      ok := WriteDirEntry(index, Patched(file, 2, LePut(sum, 2)));
      SlotChange(old(disk), disk, g, reserved, dir, index, used);
      ChecksumStored(old(disk), disk, g, dir, index, count, sum, file);
    }
  }

  /** The entries are the same but for the checksum. */
  predicate SameButSum(e: seq<Byte>, e': seq<Byte>)
    requires |e| == 32 == |e'|
  {
    e'[..2] == e[..2] && e'[4..] == e[4..]
  }

  lemma {:induction false} ChecksumPrefix(s: seq<Byte>, t: seq<Byte>, n: nat)
    requires n <= |s| && n <= |t| && forall i {:trigger s[i]} {:trigger t[i]} :: 0 <= i < n && i != 2 && i != 3 ==>
      s[i] == t[i]
    ensures SetChecksum(s, n) == SetChecksum(t, n)
  {
    if n > 0 {
      ChecksumPrefix(s, t, n - 1);
    }
  }

  /** Entries after the first are not changed by a change of the first, nor is the first
      outside the bytes of the checksum. */
  lemma {:induction false} SetKept(d: Disk, d': Disk, g: Geometry, dir: seq<nat>, idx: nat, n: nat)
    requires ExfatState.Proper(g, dir) && Epc(g) > 0 && (n > 0 ==> HasSlot(g, dir, idx + n - 1))
      && SlotsKept(d, d', g, dir, {idx})
    requires HasSlot(g, dir, idx) && forall i {:trigger Slot(d', g, dir, idx)[i]} ::
      0 <= i < 32 && i != 2 && i != 3 ==> Slot(d', g, dir, idx)[i] == Slot(d, g, dir, idx)[i]
    ensures forall i {:trigger EntrySet(d', g, dir, idx, n)[i]} :: 0 <= i < 32 * n && i != 2 && i != 3 ==>
      EntrySet(d', g, dir, idx, n)[i] == EntrySet(d, g, dir, idx, n)[i]
  {
    if n > 0 {
      SetKept(d, d', g, dir, idx, n - 1);
      var s, s' := EntrySet(d, g, dir, idx, n), EntrySet(d', g, dir, idx, n);
      if n > 1 {
        assert Slot(d', g, dir, idx + n - 1) == Slot(d, g, dir, idx + n - 1);
      } else {
        assert s == Slot(d, g, dir, idx) && s' == Slot(d', g, dir, idx);
      }
    }
  }

  /** An entry lies within one sector of its cluster. */
  lemma {:induction false} SlotSector(g: Geometry, dir: seq<nat>, index: nat)
    requires Sane(g) && ExfatState.Proper(g, dir) && Epc(g) > 0 && HasSlot(g, dir, index)
    ensures RowOf(index, Epc(g)) < |dir|
    ensures var off := ColOf(index, Epc(g));
      var sector, x := ClusterToSector(g, dir[RowOf(index, Epc(g))]) + RowOf(32 * off, g.bps), ColOf(32 * off, g.bps);
      x + 32 <= Rows(1, g.bps) && Rows(sector, g.bps) + x == SlotAt(g, dir, index)
  {
    SlotInside(g, dir, index);
    var c, off := dir[RowOf(index, Epc(g))], ColOf(index, Epc(g));
    assert 32 * off % 32 == 0;
    FieldInRow(32 * off, g.bps, 32);
    SectorBase(g, c, RowOf(32 * off, g.bps));
    hide Base, SlotAt, RowOf, ColOf, HasSlot, Rows;
  }

  lemma {:induction false} DirProper(d: Disk, g: Geometry, reserved: set<nat>, dir: seq<nat>)
    requires System(d, g, reserved, dir)
    ensures ExfatState.Proper(g, dir)
  {
  }

  lemma {:induction false} NothingKept(d: Disk, g: Geometry, dir: seq<nat>, X: set<nat>)
    requires ExfatState.Proper(g, dir) && Epc(g) > 0
    ensures FatKept(d, d, g, {}) && DataKept(d, d, g, X) && forall Y {:trigger SlotsKept(d, d, g, dir, Y)} ::
      SlotsKept(d, d, g, dir, Y)
  {
  }

  lemma {:induction false} EmptySet(d: Disk, g: Geometry, dir: seq<nat>, idx: nat)
    requires ExfatState.Proper(g, dir) && Epc(g) > 0
    ensures EntrySet(d, g, dir, idx, 0) == [] && SetChecksum([], 0) == 0
  {
  }

  lemma {:induction false} NextSet(d: Disk, g: Geometry, dir: seq<nat>, idx: nat, n: nat)
    requires ExfatState.Proper(g, dir) && Epc(g) > 0 && HasSlot(g, dir, idx + n)
      && (n > 0 ==> HasSlot(g, dir, idx + n - 1))
    ensures EntrySet(d, g, dir, idx, n + 1) == EntrySet(d, g, dir, idx, n) + Slot(d, g, dir, idx + n)
    ensures |EntrySet(d, g, dir, idx, n)| == 32 * n
  {
  }

  lemma {:induction false} SlotsDown(g: Geometry, dir: seq<nat>, i: nat, j: nat)
    requires i <= j && !HasSlot(g, dir, i)
    ensures !HasSlot(g, dir, j)
  {
  }

  lemma {:induction false} ChecksumStored(d: Disk, d': Disk, g: Geometry, dir: seq<nat>, idx: nat, n: nat, sum: nat,
      file: seq<Byte>)
    requires ExfatState.Proper(g, dir) && Epc(g) > 0 && n > 0 && HasSlot(g, dir, idx + n - 1) && HasSlot(g, dir, idx)
      && SlotsKept(d, d', g, dir, {idx})
    requires file == Slot(d, g, dir, idx) && n == EntryCount(file) && sum < 0x1_0000
      && sum == SetChecksum(EntrySet(d, g, dir, idx, n), 32 * n)
    requires Slot(d', g, dir, idx) == Patched(file, 2, LePut(sum, 2))
    ensures ChecksumRight(d', g, dir, idx) && SameButSum(file, Slot(d', g, dir, idx))
  {
    var e' := Slot(d', g, dir, idx);
    assert e'[2..4] == LePut(sum, 2);
    TwoBytes(sum);
    LeRoundTrip(sum, 2);
    SetKept(d, d', g, dir, idx, n);
    ChecksumPrefix(EntrySet(d', g, dir, idx, n), EntrySet(d, g, dir, idx, n), 32 * n);
  }

  lemma {:induction false} TwoBytes(v: nat)
    requires v < 0x1_0000
    ensures FitsIn(v, 2)
  {
    assert FitsIn(v / 256 / 256, 0);
    assert FitsIn(v / 256, 1);
  }

  lemma {:induction false} DirEnds(d: Disk, g: Geometry, dir: seq<nat>, h: nat, index: nat)
    requires ExfatState.Proper(g, dir) && Sane(g) && h < |dir| && Chained(d, g, dir) && FatAt(d, g, dir[h]) >= EOC
      && Rows(h + 1, Epc(g)) <= index
    ensures !HasSlot(g, dir, index)
  {
  }

  lemma {:induction false} DirPlace(g: Geometry, dir: seq<nat>, h: nat, index: nat, off: nat)
    requires h < |dir| && off < Epc(g) && index == Rows(h, Epc(g)) + off
    ensures HasSlot(g, dir, index) && RowOf(index, Epc(g)) == h && ColOf(index, Epc(g)) == off
  {
    assert index == At(off, h, Epc(g));
    SplitUnique(index, off, h, Epc(g));
    AtBounds(off, h, Epc(g), |dir|);
  }

  /** One bit of the bitmap was written. */
  lemma {:induction false} BitWritten(d: Disk, d': Disk, g: Geometry, k: nat, i: nat, bit: nat, used: set<nat>,
      on: bool)
    requires Sane(g) && Marked(d, g, used) && k < g.bitmapClusters && i < Bpc(g) && bit < 8
      && 8 * (Rows(k, Bpc(g)) + i) + bit < g.count
    requires OnlyIn(d, d', Base(g, g.bitmap + k) + i, 1)
    requires DataAt(d', g, g.bitmap + k, i) == if on then SetBit(DataAt(d, g, g.bitmap + k, i), bit)
      else ClearBit(DataAt(d, g, g.bitmap + k, i), bit)
    ensures FatKept(d, d', g, {}) && DataKept(d, d', g, {g.bitmap + k})
    ensures var x := 8 * (Rows(k, Bpc(g)) + i) + bit + 2; Marked(d', g, if on then used + {x} else used - {x})
  {
    var x := 8 * (Rows(k, Bpc(g)) + i) + bit + 2;
    DataChange(d, d', g, g.bitmap + k, i, 1);
    BitmapByteAt(d, g, k, i);
    BitmapByteAt(d', g, k, i);
    BitmapCluster(g, k, i);
    assert (x - 2) / 8 == Rows(k, Bpc(g)) + i && (x - 2) % 8 == bit;
    hide Base, Rows;
    BitChange(d, d', g, x, used, on);
  }

  lemma {:induction false} NoElements(chain: seq<nat>)
    ensures Elements(chain[..0]) == {}
  {
  }

  lemma {:induction false} NoChain(g: Geometry, chain: seq<nat>)
    requires ExfatState.Proper(g, chain) && (chain != [] ==> chain[0] < 2)
    ensures chain == [] && Elements(chain) == {}
  {
  }

  lemma {:induction false} BpcThere(g: Geometry)
    requires Sane(g)
    ensures Bpc(g) > 0
  {
  }

  /** The byte of the bitmap with the bit of cluster c, and the sector it is in. */
  lemma {:induction false} BitmapSector(g: Geometry, c: nat)
    requires Sane(g) && Cluster(g, c)
    ensures var j := (c - 2) / 8;
      && ColOf(j, g.bps) + 1 <= Rows(1, g.bps)
      && Rows(ClusterToSector(g, g.bitmap) + RowOf(j, g.bps), g.bps) + ColOf(j, g.bps) == BitmapByte(g, j)
  {
    var j := (c - 2) / 8;
    Split(j, g.bps, 0);
    RowsOne(g.bps);
    SectorBase(g, g.bitmap, RowOf(j, g.bps));
  }

  lemma {:induction false} MarkCleared(d: Disk, d': Disk, g: Geometry, reserved: set<nat>, dir: seq<nat>,
      used: set<nat>, c: nat)
    requires Sane(g) && System(d, g, reserved, dir) && Epc(g) > 0 && Marked(d, g, used) && Cluster(g, c)
      && c !in reserved
    requires var a, b := BitmapByte(g, (c - 2) / 8), (c - 2) % 8; OnlyIn(d, d', a, 1) && d'[a] == ClearBit(d[a], b)
    ensures System(d', g, reserved, dir) && Marked(d', g, used - {c})
    ensures FatKept(d, d', g, {}) && DataKept(d, d', g, reserved) && SlotsKept(d, d', g, dir, {})
  {
    var j := (c - 2) / 8;
    BitmapInside(g, j);
    var k := g.bitmap + RowOf(j, Bpc(g));
    DataChange(d, d', g, k, BitmapByte(g, j) - Base(g, k), 1);
    BitChange(d, d', g, c, used, false);
    assert InBitmap(g, k);
    hide RowOf, Base, BitmapByte;
    SlotsFrame(d, d', g, dir, {k});
    KeptMore(d, d', g, {k}, reserved);
    SystemFrame(d, d', g, reserved, dir, {});
  }

  lemma {:induction false} EntryFreed(d: Disk, d': Disk, g: Geometry, reserved: set<nat>, dir: seq<nat>,
      used: set<nat>, c: nat)
    requires Sane(g) && System(d, g, reserved, dir) && Epc(g) > 0 && Marked(d, g, used) && c !in reserved
    requires FatKept(d, d', g, {c}) && DataKept(d, d', g, {})
    ensures System(d', g, reserved, dir) && Marked(d', g, used) && SlotsKept(d, d', g, dir, {})
  {
    SystemFrame(d, d', g, reserved, dir, {c});
    BitsFrame(d, d', g, {}, used);
    SlotsFrame(d, d', g, dir, {});
  }

  lemma {:induction false} TwoSteps(d: Disk, d1: Disk, d2: Disk, g: Geometry, reserved: set<nat>, dir: seq<nat>, c: nat)
    requires FatKept(d, d1, g, {c}) && DataKept(d, d1, g, {}) && SlotsKept(d, d1, g, dir, {})
    requires FatKept(d1, d2, g, {}) && DataKept(d1, d2, g, reserved) && SlotsKept(d1, d2, g, dir, {})
    ensures Effect(d, d2, g, reserved, dir, {c}, {})
  {
    KeptMore(d, d1, g, {}, {c} + reserved);
    KeptMore(d1, d2, g, {}, {c});
    KeptMore(d1, d2, g, reserved, {c} + reserved);
    EffectTrans(d, d1, d2, g, reserved, dir, {c}, {});
  }

  /** The link of a cluster that is not yet freed. */
  lemma {:induction false} NextOf(d0: Disk, d: Disk, g: Geometry, reserved: set<nat>, dir: seq<nat>, chain: seq<nat>,
      i: nat, linked: bool)
    requires ExfatState.Proper(g, chain) && Linked(d0, g, chain, linked) && i < |chain|
      && Effect(d0, d, g, reserved, dir, Elements(chain[..i]), {}) && Sane(g)
    ensures Cluster(g, chain[i]) && chain[i] < EOC
    ensures i + 1 < |chain| ==> chain[i + 1] < EOC && chain[i + 1] == if linked then FatAt(d, g, chain[i])
      else chain[i] + 1
    ensures i + 1 == |chain| && linked ==> FatAt(d, g, chain[i]) == EOC
  {
    assert chain[i] !in Elements(chain[..i]);
    assert FatAt(d, g, chain[i]) == FatAt(d0, g, chain[i]);
    if i + 1 < |chain| {
      assert Cluster(g, chain[i + 1]);
    }
  }

  lemma {:induction false} FreedOne(d0: Disk, d: Disk, d': Disk, g: Geometry, reserved: set<nat>, dir: seq<nat>,
      used: set<nat>, chain: seq<nat>, i: nat)
    requires i < |chain| && Effect(d0, d, g, reserved, dir, Elements(chain[..i]), {})
      && Effect(d, d', g, reserved, dir, {chain[i]}, {})
    ensures used - Elements(chain[..i]) - {chain[i]} == used - Elements(chain[..i + 1])
    ensures Effect(d0, d', g, reserved, dir, Elements(chain[..i + 1]), {})
  {
    var X := Elements(chain[..i + 1]);
    assert X == Elements(chain[..i]) + {chain[i]} by {
      assert forall k :: 0 <= k < i ==> chain[..i + 1][k] == chain[..i][k];
      assert chain[..i + 1][i] == chain[i];
    }
    hide Elements;
    EffectMore(d0, d, g, reserved, dir, Elements(chain[..i]), {}, X, {});
    EffectMore(d, d', g, reserved, dir, {chain[i]}, {}, X, {});
    EffectTrans(d0, d, d', g, reserved, dir, X, {});
  }

  /** Patching a buffer that was read, or filling one that was not. */
  lemma {:induction false} WholeOrModified(d: Disk, bps: nat, sector: nat, count: nat, off: nat, s: seq<Byte>,
      scratch: seq<Byte>, buf: seq<Byte>)
    requires off + |s| <= Rows(count, bps) == |scratch| && buf == if |s| < |scratch|
      then ReadSectors(d, bps, sector, count) else scratch
    ensures var d' := WriteSectors(d, bps, sector, count, Patched(buf, off, s));
      OnlyIn(d, d', Rows(sector, bps) + off, |s|) && Slice(d', Rows(sector, bps) + off, |s|) == s
  {
    if |s| < |scratch| {
      ReadModifyWrite(d, bps, sector, count, off, s);
    } else {
      assert Patched(scratch, off, s) == s && s[..|s|] == s;
      StoreOnly(d, Rows(sector, bps), s);
    }
  }

  lemma {:induction false} RowsZero(b: nat)
    ensures Rows(0, b) == 0
  {
  }

  lemma {:induction false} EocFits()
    ensures EOC < 0x1_0000_0000
  {
  }

  lemma {:induction false} BitOfByte(d: Disk, g: Geometry, k: nat, i: nat, bit: nat)
    requires 2 <= g.bitmap && bit < 8
    ensures BitIx(d, g, 8 * (Rows(k, Bpc(g)) + i) + bit) <==> Bit(DataAt(d, g, g.bitmap + k, i), bit)
  {
    BitmapByteAt(d, g, k, i);
    var y := 8 * (Rows(k, Bpc(g)) + i) + bit;
    assert y / 8 == Rows(k, Bpc(g)) + i && y % 8 == bit;
  }

  lemma {:induction false} BitmapStart(d: Disk, g: Geometry, reserved: set<nat>, dir: seq<nat>)
    requires Sane(g) && System(d, g, reserved, dir)
    ensures 0 < g.bitmapClusters && g.bitmap + g.bitmapClusters < EOC
  {
  }

  lemma {:induction false} BitmapNext(d: Disk, g: Geometry, reserved: set<nat>, dir: seq<nat>, k: nat)
    requires Sane(g) && System(d, g, reserved, dir) && k < g.bitmapClusters
    ensures FatAt(d, g, g.bitmap + k) == if k + 1 < g.bitmapClusters then g.bitmap + k + 1 else EOC
  {
    assert InBitmap(g, g.bitmap + k);
  }

  lemma {:induction false} FullByte(d: Disk, g: Geometry, k: nat, i: nat)
    requires 2 <= g.bitmap && DataAt(d, g, g.bitmap + k, i) == 0xFF
    ensures forall y: nat {:trigger BitIx(d, g, y)} ::
      8 * (Rows(k, Bpc(g)) + i) <= y < 8 * (Rows(k, Bpc(g)) + i) + 8 ==> BitIx(d, g, y)
  {
    var a := 8 * (Rows(k, Bpc(g)) + i);
    forall y: nat {:trigger BitIx(d, g, y)} | a <= y < a + 8 ensures BitIx(d, g, y) {
      BitOfByte(d, g, k, i, y - a);
      AllOnes(y - a);
    }
  }

  lemma {:induction false} SetByteFits(w: Byte, bit: nat)
    requires bit < 8
    ensures SetBit(w, bit) < 256 && ClearBit(w, bit) < 256
  {
    Pow2Values();
    SetBitBelow(w, bit, 8);
  }

  /** Writing back only the sector that holds the changed byte stores that byte. */
  lemma {:induction false} OneSector(d: Disk, g: Geometry, c: nat, i: nat, buf: seq<Byte>, w: Byte)
    requires Sane(g) && 2 <= c && i < Bpc(g) == |buf| && forall j: nat {:trigger buf[j]} :: j < Bpc(g) ==>
      buf[j] == DataAt(d, g, c, j)
    ensures var s := RowOf(i, g.bps);
      && Rows(s, g.bps) + Rows(1, g.bps) <= |buf|
      && var d' := WriteSectors(d, g.bps, ClusterToSector(g, c) + s, 1, buf[i := w][Rows(s, g.bps)..]);
         OnlyIn(d, d', Base(g, c) + i, 1) && DataAt(d', g, c, i) == w
  {
    var s := RowOf(i, g.bps);
    Split(i, g.bps, g.spc);
    RowsMonotone(s, g.spc, g.bps);
    RowsOne(g.bps);
    SectorBase(g, c, s);
    hide Base, Rows, RowOf, ColOf, ClusterToSector;
    forall j: nat {:trigger buf[j]} | j < |buf| ensures buf[j] == d[Base(g, c) + j] {
      assert buf[j] == DataAt(d, g, c, j);
    }
    WritePart(d, Base(g, c), buf, i, Rows(s, g.bps), g.bps, w);
  }

  /** Storing a part of a buffer that differs from the disk in one byte of the part. */
  lemma {:induction false} WritePart(d: Disk, base: nat, buf: seq<Byte>, i: nat, off: nat, n: nat, w: Byte)
    requires off <= i < off + n <= |buf| && forall j: nat {:trigger buf[j]} :: j < |buf| ==> buf[j] == d[base + j]
    ensures var d' := Store(d, base + off, buf[i := w][off..][..n]); OnlyIn(d, d', base + i, 1) && d'[base + i] == w
  {
    var part := buf[i := w][off..][..n];
    var d' := Store(d, base + off, part);
    forall b: int {:trigger d'[b]} ensures d'[b] == if b == base + i then w else d[b] {
      StoreAt(d, base + off, part, b);
      if base + off <= b < base + off + n {
        assert part[b - base - off] == buf[i := w][b - base];
        assert b != base + i ==> buf[b - base] == d[b];
      }
    }
  }

  lemma {:induction false} AllTaken(d: Disk, g: Geometry, used: set<nat>)
    requires Sane(g) && Marked(d, g, used)
    requires forall y: nat {:trigger BitIx(d, g, y)} :: y < 8 * Rows(g.bitmapClusters, Bpc(g)) ==> BitIx(d, g, y)
    ensures forall x: nat :: Cluster(g, x) ==> x in used
  {
    forall x: nat | Cluster(g, x) ensures x in used {
      assert BitAt(d, g, x);
    }
  }

  /** The first clear bit is the lowest free cluster, unless it is past the last one. */
  lemma {:induction false} ThatBit(d: Disk, g: Geometry, used: set<nat>, k: nat, i: nat, bit: nat)
    requires Sane(g) && Marked(d, g, used) && bit < 8 && !Bit(DataAt(d, g, g.bitmap + k, i), bit)
    requires forall y: nat {:trigger BitIx(d, g, y)} :: y < 8 * (Rows(k, Bpc(g)) + i) + bit ==> BitIx(d, g, y)
    ensures var c := 8 * (Rows(k, Bpc(g)) + i) + bit + 2;
      if c - 2 < g.count then LowestFree(g, used, c) else forall x: nat :: Cluster(g, x) ==> x in used
  {
    var c := 8 * (Rows(k, Bpc(g)) + i) + bit + 2;
    BitOfByte(d, g, k, i, bit);
    assert !BitAt(d, g, c);
    forall x: nat | Cluster(g, x) && x < c ensures x in used {
      assert BitAt(d, g, x);
    }
  }

  lemma {:induction false} FreshEntry(d: Disk, d1: Disk, d2: Disk, g: Geometry, reserved: set<nat>, dir: seq<nat>,
      used: set<nat>, c: nat)
    requires Sane(g) && System(d, g, reserved, dir) && Epc(g) > 0 && LowestFree(g, used, c) && reserved <= used
    requires exists k: nat {:trigger DataKept(d, d1, g, {k})} :: InBitmap(g, k) && DataKept(d, d1, g, {k})
    requires FatKept(d, d1, g, {}) && Marked(d1, g, used + {c})
    requires FatKept(d1, d2, g, {c}) && DataKept(d1, d2, g, {})
    ensures System(d2, g, reserved, dir) && Marked(d2, g, used + {c}) && FatKept(d, d2, g, {c})
      && DataKept(d, d2, g, reserved) && SlotsKept(d, d2, g, dir, {})
  {
    var k: nat :| InBitmap(g, k) && DataKept(d, d1, g, {k});
    FatKeptTrans(d, d1, d2, g, {}, {c});
    assert {} + {c} == {c};
    DataKeptTrans(d, d1, d2, g, {k}, {});
    assert {k} + {} == {k};
    KeptMore(d, d2, g, {k}, reserved);
    SystemFrame(d, d2, g, reserved, dir, {c});
    BitsFrame(d1, d2, g, {}, used + {c});
    SlotsFrame(d, d2, g, dir, {k});
  }
}
