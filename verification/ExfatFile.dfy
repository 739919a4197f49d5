/** Files of a mounted volume: appending, reading, creating and removing. */
module ExfatFile {
  import opened Shifts
  import opened Bits
  import opened Counting
  import opened LittleEndian
  import opened RowMajor
  import opened ExfatDisk
  import opened ExfatState
  import opened ExfatVolume
  import opened Exfat

  /** An open file. */
  class Handle {
    const index: nat
    var first: nat
    var size: nat
    var position: nat
    var current: nat
    var offset: nat
    var noFatChain: bool

    constructor (i: nat, f: nat, s: nat, contiguous: bool)
      ensures index == i && first == f && current == f && size == s && position == 0 && offset == 0
        && noFatChain == contiguous
    {
      index, first, current, size := i, f, f, s;
      position, offset, noFatChain := 0, 0, contiguous;
    }
  }

  /** The file ends off bytes into its last cluster. */
  ghost predicate Growing(d: Disk, g: Geometry, m: Meta, off: nat)
  {
    && m.chain != [] && ExfatState.Proper(g, m.chain) && Linked(d, g, m.chain, m.linked) && off <= Bpc(g)
    && |m.content| == At(off, |m.chain| - 1, Bpc(g)) && Holds(d, g, m.chain, m.content)
  }

  /** The stream entry names the first cluster and the kind of chain. */
  predicate Head(e: seq<Byte>, first: nat, contiguous: bool)
    requires |e| == 32
  {
    LeGet(e[20..24]) == first && Bit(e[1], 1) == contiguous
  }

  /** While file id is written: the handle is at its end. */
  ghost predicate Appending(d: Disk, g: Geometry, m: Meta, first: nat, current: nat, offset: nat, size: nat,
      position: nat, contiguous: bool)
  {
    && size == position == |m.content| && contiguous == !m.linked
    && if m.chain == [] then first == 0 && offset == 0 && m.content == [] && m.linked
       else first == m.chain[0] && current == m.chain[|m.chain| - 1] && Growing(d, g, m, offset)
  }

  class FileSystem {
    const vol: Volume
    ghost var files: map<nat, Meta>
    ghost var owner: map<nat, nat>

    constructor (v: Volume)
      requires v.Core(v.reserved) && Directory(v.disk, v.g, v.dir, map[], -1)
      ensures vol == v && files == map[] && owner == map[] && Inv(-1)
    {
      vol, files, owner := v, map[], map[];
      new;
      hide Sane, System, Marked, Fs, Epc;
      assert Used(vol.reserved, owner) == vol.reserved;
      NoFiles(vol.disk, vol.g, vol.reserved, vol.dir);
    }

    /** The volume is sound, and so are all files but file ex. */
    ghost predicate Inv(ex: int)
      reads this, vol
    {
      vol.Core(Used(vol.reserved, owner)) && Fs(vol.disk, vol.g, vol.reserved, vol.dir, files, owner, ex)
    }

    /** Every cluster is in use. */
    ghost predicate Full()
      reads this, vol
    {
      forall x: nat :: Cluster(vol.g, x) ==> x in Used(vol.reserved, owner)
    }

    /** The handle is at the end of its file, and the stream entry names its clusters. */
    ghost predicate Appends(h: Handle)
      reads this, vol, h
    {
      && h.index in files
      && Appending(vol.disk, vol.g, files[h.index], h.first, h.current, h.offset, h.size, h.position, h.noFatChain)
      && Head(Slot(vol.disk, vol.g, vol.dir, h.index + 1), h.first, h.noFatChain)
    }

    /** The handle of a sound file is at its end. */
    ghost predicate Ready(h: Handle)
      reads this, vol, h
    {
      Appends(h) && (files[h.index].chain != [] ==> h.offset > 0)
    }

    /** Writing the stream entry of file id and the checksum of its entry set. */
    method PutStream(id: nat, e: seq<Byte>)
      requires Inv(id) && id in files && |e| == 32 && e[0] == 0xC0
      modifies vol
      ensures Inv(id) && HasSlot(vol.g, vol.dir, id + 2) && Slot(vol.disk, vol.g, vol.dir, id + 1) == e
      ensures Effect(old(vol.disk), vol.disk, vol.g, vol.reserved, vol.dir, {}, SlotsOf(id))
      ensures SameButSum(Slot(old(vol.disk), vol.g, vol.dir, id), Slot(vol.disk, vol.g, vol.dir, id))
      ensures Slot(vol.disk, vol.g, vol.dir, id + 2) == Slot(old(vol.disk), vol.g, vol.dir, id + 2)
      ensures ChecksumRight(vol.disk, vol.g, vol.dir, id)
    {
      ghost var g, dir, used := vol.g, vol.dir, Used(vol.reserved, owner);
      HasSlots(vol.disk, g, vol.reserved, dir, files, owner, id);
      hide Sane, System, Marked, Fs, Effect, FatKept, DataKept, SlotAt, Epc, ChecksumRight, SetTypes, SameButSum;
      DirProper(vol.disk, g, vol.reserved, dir);
      var ok := vol.WriteDirEntry(id + 1, e);
      SlotChange(old(vol.disk), vol.disk, g, vol.reserved, dir, id + 1, used);
      ghost var d1 := vol.disk;
      ok := vol.UpdateChecksum(id, used);
      assert Slot(vol.disk, g, dir, id + 1) == Slot(d1, g, dir, id + 1);
      assert Slot(d1, g, dir, id) == Slot(old(vol.disk), g, dir, id);
      assert Slot(vol.disk, g, dir, id + 2) == Slot(d1, g, dir, id + 2) == Slot(old(vol.disk), g, dir, id + 2);
      TwoSlots(old(vol.disk), d1, vol.disk, g, vol.reserved, dir, id);
      StreamTypes(old(vol.disk), vol.disk, g, vol.reserved, dir, files, owner, id);
      FsFrame(old(vol.disk), vol.disk, g, vol.reserved, dir, files, owner, id, {});
    }

    /** The stream entry of file id. */
    method StreamEntry(id: nat) returns (e: seq<Byte>)
      requires Inv(id) && id in files
      ensures |e| == 32 && e == Slot(vol.disk, vol.g, vol.dir, id + 1) && e[0] == 0xC0
    {
      StreamType(vol.disk, vol.g, vol.reserved, vol.dir, files, owner, id);
      HasSlots(vol.disk, vol.g, vol.reserved, vol.dir, files, owner, id);
      hide Sane, System, Marked, Fs, SlotAt, Epc, HasSlot;
      var ok;
      ok, e := vol.ReadDirEntry(id + 1);
    }

    /** Taking a new cluster for file id. */
    method Claim(id: nat) returns (ok: bool, c: nat)
      requires Inv(id) && id in files
      modifies this, vol
      ensures Inv(id)
      ensures !ok ==> files == old(files) && owner == old(owner) && vol.disk == old(vol.disk) && forall x: nat ::
        Cluster(vol.g, x) ==> x in Used(vol.reserved, owner)
      ensures ok ==> LowestFree(vol.g, Used(vol.reserved, old(owner)), c) && FatAt(vol.disk, vol.g, c) == EOC
      ensures ok ==>
        files == old(files)[id := old(files)[id].(chain := old(files)[id].chain + [c])]
        && owner == old(owner)[c := id]
      ensures ok ==> Effect(old(vol.disk), vol.disk, vol.g, vol.reserved, vol.dir, {c}, {})
      ensures SameSet(old(vol.disk), vol.disk, vol.g, vol.dir, id)
    {
      HasSlots(vol.disk, vol.g, vol.reserved, vol.dir, files, owner, id);
      hide Sane, System, Marked, Fs, FatKept, DataKept, SlotsKept, Effect, Epc, LowestFree, SlotAt, HasSlot;
      ghost var used := Used(vol.reserved, owner);
      DirProper(vol.disk, vol.g, vol.reserved, vol.dir);
      ok, c := vol.AllocateCluster(used);
      if ok {
        SlotsSame(old(vol.disk), vol.disk, vol.g, vol.dir, id);
        ClaimEffect(old(vol.disk), vol.disk, vol.g, vol.reserved, vol.dir, files, owner, id, c);
        files := files[id := files[id].(chain := files[id].chain + [c])];
        owner := owner[c := id];
        assert Used(vol.reserved, owner) == used + {c};
      }
    }

    /** A cluster for an empty file, which is then a run of one. */
    method ClaimFirst(id: nat) returns (ok: bool, c: nat)
      requires Inv(id) && id in files && files[id].chain == []
      modifies this, vol
      ensures Inv(id)
      ensures !ok ==> files == old(files) && owner == old(owner) && Full() && vol.disk == old(vol.disk)
      ensures ok ==> Cluster(vol.g, c) && c < 0x1_0000_0000 && files == old(files)[id := Meta([c], false, [])]
    {
      hide Sane, System, Marked, Fs, Effect, Epc, LowestFree, SlotAt, Slot, HasSlot, SameSet;
      ok, c := Claim(id);
      if ok {
        FreeInRange(vol.g, Used(vol.reserved, old(owner)), c);
        FsRelabel(vol.disk, vol.g, vol.reserved, vol.dir, files, owner, id, Meta([c], false, []));
        files := files[id := Meta([c], false, [])];
      }
    }

    /** The first cluster of an empty file. */
    method FirstCluster(h: Handle) returns (ok: bool)
      requires Inv(h.index) && h.index in files && files[h.index].chain == [] && Appends(h)
      modifies this, vol, h
      ensures Inv(h.index) && h.index in files && Appends(h) && Others(old(files), files, h.index)
      ensures files[h.index].content == old(files)[h.index].content
      ensures !ok ==> files == old(files) && owner == old(owner) && Full() && vol.disk == old(vol.disk)
      ensures ok ==> h.first != 0 && h.offset == 0
    {
      hide Sane, System, Marked, Fs, Effect, Epc, Growing, SlotAt, Slot, Head, HasSlot;
      var c;
      ok, c := ClaimFirst(h.index);
      if ok {
        h.first, h.current, h.noFatChain := c, c, true;
        RecordFirst(h.index, c);
        FirstGrowing(vol.disk, vol.g, c);
      }
    }

    /** The stream entry names the first cluster, with a length to come. */
    method RecordFirst(id: nat, c: nat)
      requires Inv(id) && id in files && c < 0x1_0000_0000
      modifies vol
      ensures Inv(id) && Head(Slot(vol.disk, vol.g, vol.dir, id + 1), c, true)
    {
      hide Sane, System, Marked, Fs, Effect, Epc, SlotAt, Slot, Head, HasSlot, SameButSum, ChecksumRight, Patched,
        LePut;
      var e := StreamEntry(id);
      HeadFirst(e, c);
      PutStream(id, Patched(Patched(e, 20, LePut(c, 4)), 1, [3]));
    }

    /** Setting the FAT entry of a cluster of file id. */
    method Link(id: nat, c: nat, v: nat)
      requires Inv(id) && id in files && c in owner && owner[c] == id && v < 0x1_0000_0000
      modifies vol
      ensures Inv(id) && FatAt(vol.disk, vol.g, c) == v && FatKept(old(vol.disk), vol.disk, vol.g, {c})
        && DataKept(old(vol.disk), vol.disk, vol.g, {})
      ensures SameSet(old(vol.disk), vol.disk, vol.g, vol.dir, id)
    {
      hide Sane, System, Marked, Fs, FatKept, DataKept, SlotsKept, Effect, Epc, SlotAt, HasSlot, Private, Slot;
      HasSlots(vol.disk, vol.g, vol.reserved, vol.dir, files, owner, id);
      OwnCluster(vol.disk, vol.g, vol.reserved, vol.dir, files, owner, id, c);
      vol.SetFatEntry(c, v);
      DirProper(old(vol.disk), vol.g, vol.reserved, vol.dir);
      FatEffect(old(vol.disk), vol.disk, vol.g, vol.reserved, vol.dir, Used(vol.reserved, owner), id, c);
      TypesKept(old(vol.disk), vol.disk, vol.g, vol.reserved, vol.dir, files, owner, id);
      FsFrame(old(vol.disk), vol.disk, vol.g, vol.reserved, vol.dir, files, owner, id, {c});
    }

    /** The next cluster when the last one is full. */
    method NextCluster(h: Handle) returns (ok: bool)
      requires Inv(h.index) && h.index in files && files[h.index].chain != [] && Appends(h) && h.offset >= Bpc(vol.g)
      modifies this, vol, h
      ensures Inv(h.index) && h.index in files && Appends(h) && Others(old(files), files, h.index)
      ensures files[h.index].content == old(files)[h.index].content && files[h.index].chain != []
      ensures !ok ==> files == old(files) && owner == old(owner) && Full() && h.offset == old(h.offset)
      ensures ok ==> h.offset == 0
    {
      if h.noFatChain {
        ok := NextInRun(h);
      } else {
        ok := NextInChain(h);
      }
    }

    /** The branch for a chained file. */
    method NextInChain(h: Handle) returns (ok: bool)
      requires Inv(h.index) && h.index in files && files[h.index].chain != [] && Appends(h) && h.offset >= Bpc(vol.g)
        && !h.noFatChain
      modifies this, vol, h
      ensures Inv(h.index) && h.index in files && Appends(h) && Others(old(files), files, h.index)
      ensures files[h.index].content == old(files)[h.index].content && files[h.index].chain != []
      ensures !ok ==> files == old(files) && owner == old(owner) && Full() && h.offset == old(h.offset)
      ensures ok ==> h.offset == 0
    {
      hide Sane, System, Marked, Fs, FatKept, DataKept, Effect, Epc, LowestFree, Growing, SlotAt, Slot, Head, HasSlot;
      var id := h.index;
      ghost var m := files[id];
      LastEnds(vol.disk, vol.g, m, h.offset);
      var next := vol.GetFatEntry(h.current);
      assert next >= EOC;
      ok, next := Claim(id);
      if !ok {
        return;
      }
      ghost var d1 := vol.disk;
      FreeInRange(vol.g, Used(vol.reserved, old(owner)), next);
      GrowingKept(old(vol.disk), d1, vol.g, vol.reserved, vol.dir, old(files), old(owner), id, next, h.offset);
      LastOwned(d1, vol.g, vol.reserved, vol.dir, files, owner, id, m.chain, next);
      Link(id, h.current, next);
      ChainLonger(d1, vol.disk, vol.g, m, next);
      h.current := next;
      h.offset := 0;
    }

    /** The branch for a contiguous file: go on with the run, or link what there is into
        the FAT and go on as a chain. */
    method NextInRun(h: Handle) returns (ok: bool)
      requires Inv(h.index) && h.index in files && files[h.index].chain != [] && Appends(h) && h.offset >= Bpc(vol.g)
        && h.noFatChain
      modifies this, vol, h
      ensures Inv(h.index) && h.index in files && Appends(h) && Others(old(files), files, h.index)
      ensures files[h.index].content == old(files)[h.index].content && files[h.index].chain != []
      ensures !ok ==> files == old(files) && owner == old(owner) && Full() && h.offset == old(h.offset)
      ensures ok ==> h.offset == 0
    {
      hide Sane, System, Marked, Fs, FatKept, DataKept, Effect, Epc, LowestFree, Growing, SlotAt, Slot, Head, HasSlot;
      var id := h.index;
      ghost var m := files[id];
      FullLast(vol.disk, vol.g, m, h.offset);
      var next;
      ok, next := Claim(id);
      if !ok {
        return;
      }
      ghost var d1 := vol.disk;
      FreeInRange(vol.g, Used(vol.reserved, old(owner)), next);
      GrowingKept(old(vol.disk), d1, vol.g, vol.reserved, vol.dir, old(files), old(owner), id, next, h.offset);
      if next == h.current + 1 {
        RunLonger(vol.disk, vol.g, m, next);
        h.current := next;
      } else {
        Convert(h, next, m);
      }
      h.offset := 0;
    }

    /** The switch from contiguous to chained. */
    method Convert(h: Handle, next: nat, ghost m: Meta)
      requires Inv(h.index) && h.index in files && files[h.index] == m.(chain := m.chain + [next]) && next in owner
        && owner[next] == h.index
      requires m.chain != [] && next !in m.chain && Cluster(vol.g, next) && next < 0x1_0000_0000
        && FatAt(vol.disk, vol.g, next) == EOC
      requires Growing(vol.disk, vol.g, m, Bpc(vol.g)) && !m.linked && h.first == m.chain[0]
        && h.current == m.chain[|m.chain| - 1]
      requires Head(Slot(vol.disk, vol.g, vol.dir, h.index + 1), h.first, true)
      modifies vol, this`files, h`noFatChain, h`current
      ensures Inv(h.index) && files == old(files)[h.index := Meta(m.chain + [next], true, m.content)]
      ensures h.current == next && !h.noFatChain && Growing(vol.disk, vol.g, files[h.index], 0)
      ensures Head(Slot(vol.disk, vol.g, vol.dir, h.index + 1), h.first, false)
    {
      hide Sane, System, Marked, Fs, FatKept, DataKept, Effect, Epc, Growing, SlotAt, Slot, Head, HasSlot, Owned,
        Contiguous, ExfatState.Proper, Cluster, FatAt;
      var id := h.index;
      h.noFatChain := false;
      ghost var d0 := vol.disk;
      RunFacts(d0, vol.g, vol.reserved, vol.dir, files, owner, id, m, next);
      SameDataNow(d0, vol.g);
      for c := h.first to h.current
        invariant Inv(id) && files == old(files) && !h.noFatChain && h.first == m.chain[0]
          && h.current == m.chain[|m.chain| - 1]
        invariant FatAt(vol.disk, vol.g, next) == EOC && DataKept(d0, vol.disk, vol.g, {})
        invariant forall j: nat {:trigger FatAt(vol.disk, vol.g, j)} :: h.first <= j < c ==>
          FatAt(vol.disk, vol.g, j) == j + 1
        invariant SameSet(d0, vol.disk, vol.g, vol.dir, id)
      {
        ghost var d := vol.disk;
        RunMember(vol.g, files, owner, id, m, next, c);
        Link(id, c, c + 1);
        LinkStep(d0, d, vol.disk, vol.g, m.chain[0], m.chain[|m.chain| - 1], c, next);
      }
      ghost var d := vol.disk;
      RunMember(vol.g, files, owner, id, m, next, h.current);
      Link(id, h.current, next);
      LinkedRun(d0, d, vol.disk, vol.g, m, next);
      h.current := next;
      FsRelabel(vol.disk, vol.g, vol.reserved, vol.dir, files, owner, id, Meta(m.chain + [next], true, m.content));
      files := files[id := Meta(m.chain + [next], true, m.content)];
      ghost var d2 := vol.disk;
      var e := StreamEntry(id);
      ClearByteFits(e[1]);
      HeadChained(e, h.first);
      PutStream(id, Patched(e, 1, [ClearBit(e[1], 1)]));
      OwnFrame(d2, vol.disk, vol.g, vol.reserved, vol.dir, files, owner, id, 0);
    }

    /** Writing bytes into a cluster of file id. */
    method PutBytes(id: nat, c: nat, off: nat, s: seq<Byte>, scratch: seq<Byte>)
      requires Inv(id) && id in files && c in owner && owner[c] == id && off + |s| <= Bpc(vol.g) == |scratch|
      modifies vol
      ensures Inv(id) && OnlyIn(old(vol.disk), vol.disk, Base(vol.g, c) + off, |s|)
        && Slice(vol.disk, Base(vol.g, c) + off, |s|) == s
      ensures FatKept(old(vol.disk), vol.disk, vol.g, {})
      ensures SameSet(old(vol.disk), vol.disk, vol.g, vol.dir, id)
    {
      hide Sane, System, Marked, Fs, FatKept, DataKept, SlotsKept, Effect, Epc, SlotAt, HasSlot, Private, Rows, Base,
        Slice, OnlyIn, Slot, Bpc;
      HasSlots(vol.disk, vol.g, vol.reserved, vol.dir, files, owner, id);
      OwnCluster(vol.disk, vol.g, vol.reserved, vol.dir, files, owner, id, c);
      vol.WriteBytes(c, off, s, scratch);
      DirProper(old(vol.disk), vol.g, vol.reserved, vol.dir);
      DataEffect(old(vol.disk), vol.disk, vol.g, vol.reserved, vol.dir, Used(vol.reserved, owner), id, c, off, |s|);
      TypesKept(old(vol.disk), vol.disk, vol.g, vol.reserved, vol.dir, files, owner, id);
      FsFrame(old(vol.disk), vol.disk, vol.g, vol.reserved, vol.dir, files, owner, id, {c});
    }

    /** One round of the loop of `exfat_write`: a cluster to write to, then as many bytes
        as fit. */
    method WriteRound(h: Handle, s: seq<Byte>, scratch: seq<Byte>) returns (ok: bool, n: nat)
      requires Inv(h.index) && Appends(h) && (files[h.index].chain != [] ==> h.offset > 0) && s != []
        && |scratch| == Bpc(vol.g)
      modifies this, vol, h
      ensures Inv(h.index) && Appends(h) && Others(old(files), files, h.index)
        && (files[h.index].chain != [] ==> h.offset > 0)
      ensures !ok ==> files == old(files) && Full()
      ensures ok ==> 0 < n <= |s| && files[h.index].content == old(files)[h.index].content + s[..n]
    {
      hide Fs, Growing, Head, Slot, Epc, Sane, Marked, System;
      ok, n := true, 0;
      BpcPositive(vol.g);
      if h.first == 0 {
        NoCluster(vol.disk, vol.g, files[h.index], h.first, h.current, h.offset, h.size, h.position, h.noFatChain);
        ok := FirstCluster(h);
        if !ok { return; }
      }
      if h.offset >= Bpc(vol.g) {
        ok := NextCluster(h);
        if !ok { return; }
      }
      n := Chunk(h, s, scratch);
    }

    /** The bytes that fit into the last cluster. */
    method Chunk(h: Handle, s: seq<Byte>, scratch: seq<Byte>) returns (n: nat)
      requires Inv(h.index) && Appends(h) && files[h.index].chain != [] && h.offset < Bpc(vol.g) && s != []
        && |scratch| == Bpc(vol.g)
      modifies this`files, vol, h
      ensures Inv(h.index) && Appends(h) && Others(old(files), files, h.index) && h.offset > 0
      ensures 0 < n <= |s| && files[h.index].content == old(files)[h.index].content + s[..n]
    {
      hide Sane, System, Marked, Fs, FatKept, DataKept, Effect, Epc, Growing, Slot, Head, HasSlot, Base, OnlyIn, Slice;
      var id := h.index;
      ghost var m := files[id];
      var avail := Bpc(vol.g) - h.offset;
      n := if |s| < avail then |s| else avail;
      LastOfChain(vol.disk, vol.g, vol.reserved, vol.dir, files, owner, id, h.offset);
      PutBytes(id, h.current, h.offset, s[..n], scratch);
      GrowingMore(old(vol.disk), vol.disk, vol.g, m, h.offset, s[..n]);
      FsRelabel(vol.disk, vol.g, vol.reserved, vol.dir, files, owner, id, m.(content := m.content + s[..n]));
      files := files[id := m.(content := m.content + s[..n])];
      h.position := h.position + n;
      h.offset := h.offset + n;
      if h.position > h.size {
        h.size := h.position;
      }
    }

    /** `exfat_write` at the end of a file: the bytes written are appended, and fewer than
        all are written only when no cluster is left. */
    method Write(h: Handle, buf: seq<Byte>, scratch: seq<Byte>) returns (done: nat)
      requires Inv(-1) && Ready(h) && |scratch| == Bpc(vol.g)
      modifies this, vol, h
      ensures Inv(-1) && Ready(h) && Others(old(files), files, h.index)
      ensures done <= |buf| && files[h.index].content == old(files)[h.index].content + buf[..done]
      ensures done < |buf| ==> Full()
    {
      hide Fs, Growing, Head, Slot, Epc, Sane, Marked, System, Appending;
      if |buf| == 0 {
        return 0;
      }
      var id := h.index;
      Begin(vol.disk, vol.g, vol.reserved, vol.dir, files, owner, h.index);
      done := 0;
      var ok := true;
      while done < |buf| && ok
        invariant done <= |buf| && Inv(id) && Appends(h) && Others(old(files), files, id)
          && (files[id].chain != [] ==> h.offset > 0)
        invariant files[id].content == old(files)[id].content + buf[..done]
        invariant !ok ==> Full()
        decreases |buf| - done, ok
      {
        var n;
        ok, n := WriteRound(h, buf[done..], scratch);
        if ok {
          assert buf[..done] + buf[done..][..n] == buf[..done + n];
          done := done + n;
        }
      }
      Finish(h);
    }

    /** The stream entry gets the new length. */
    method Finish(h: Handle)
      requires Inv(h.index) && Appends(h) && (files[h.index].chain != [] ==> h.offset > 0)
      modifies vol
      ensures Inv(-1) && Ready(h)
    {
      hide Fs, Growing, Head, Slot, Epc, Sane, Marked, System, Effect;
      var id := h.index;
      ghost var m := files[id];
      SizeFits(vol.disk, vol.g, m, h.first, h.current, h.offset, h.size, h.position, h.noFatChain);
      var e := StreamEntry(id);
      SizeStored(e, h.first, h.noFatChain, h.size);
      PutStream(id, Patched(Patched(e, 8, LePut(h.size, 8)), 24, LePut(h.size, 8)));
      Closed(old(vol.disk), vol.disk, vol.g, vol.reserved, vol.dir, files, owner, id, h.first, h.current, h.offset,
        h.size, h.position, h.noFatChain);
    }

    /** `exfat_open`, once the directory index is known. */
    method Open(id: nat) returns (h: Handle)
      requires Inv(-1) && id in files
      ensures fresh(h) && h.index == id && Reads(h, 0)
      ensures h.position == 0 && (files[id].chain != [] ==> h.first == files[id].chain[0])
    {
      Begin(vol.disk, vol.g, vol.reserved, vol.dir, files, owner, id);
      SoundFile(vol.disk, vol.g, vol.reserved, vol.dir, files, owner, id);
      hide Fs, Slot, Epc, Sane, Marked, System, LeGet, Bit;
      var e := StreamEntry(id);
      h := new Handle(id, LeGet(e[20..24]), LeGet(e[24..32]), Bit(e[1], 1));
      AtStart(vol.g, files[id]);
    }

    /** The handle of file id stands in cluster k of its file. */
    ghost predicate Reads(h: Handle, k: nat)
      reads this, vol, h
    {
      && h.index in files && h.size == |files[h.index].content| && h.noFatChain == !files[h.index].linked
      && At(h.offset, k, Bpc(vol.g)) == h.position <= h.size && h.offset <= Bpc(vol.g)
      && (files[h.index].chain != [] ==> k < |files[h.index].chain| && h.current == files[h.index].chain[k])
    }

    /** One round of the loop of `exfat_read`. */
    method ReadRound(h: Handle, todo: nat, ghost k0: nat) returns (part: seq<Byte>, ghost k: nat)
      requires Inv(-1) && Reads(h, k0) && 0 < todo <= h.size - h.position
      modifies h
      ensures Reads(h, k) && 0 < |part| <= todo && h.position == old(h.position) + |part| && h.size == old(h.size)
      ensures part == files[h.index].content[old(h.position)..h.position]
    {
      hide Fs, Epc, Marked, System, At, Slot, Bpc, MetaSound, MetaEntry, Sane, Cluster;
      SoundFile(vol.disk, vol.g, vol.reserved, vol.dir, files, owner, h.index);
      k := StepCluster(h, files[h.index], k0);
      part := CopyOut(h, todo, files[h.index], k);
      h.position := h.position + |part|;
      h.offset := h.offset + |part|;
    }

    /** From the end of one cluster to the start of the next. */
    method StepCluster(h: Handle, ghost m: Meta, ghost k0: nat) returns (ghost k: nat)
      requires Sane(vol.g) && MetaSound(vol.disk, vol.g, m) && h.noFatChain == !m.linked && h.offset <= Bpc(vol.g)
        && At(h.offset, k0, Bpc(vol.g)) < |m.content|
      requires m.chain != [] ==> k0 < |m.chain| && h.current == m.chain[k0]
      modifies h`current, h`offset
      ensures h.offset < Bpc(vol.g) && At(h.offset, k, Bpc(vol.g)) == At(old(h.offset), k0, Bpc(vol.g))
      ensures k < |m.chain| && h.current == m.chain[k] && Cluster(vol.g, m.chain[k])
    {
      k := k0;
      MoreClusters(vol.disk, vol.g, m, h.offset, k);
      BpcPositive(vol.g);
      hide At, Bpc, MetaSound, Sane;
      if h.offset >= Bpc(vol.g) {
        if h.noFatChain {
          h.current := h.current + 1;
        } else {
          h.current := vol.GetFatEntry(h.current);
        }
        assert h.current < EOC;
        h.offset := 0;
        k := k + 1;
      }
    }

    /** The bytes of one cluster, up to its end. */
    method CopyOut(h: Handle, todo: nat, ghost m: Meta, ghost k: nat) returns (part: seq<Byte>)
      requires MetaSound(vol.disk, vol.g, m) && k < |m.chain| && h.current == m.chain[k] && Cluster(vol.g, m.chain[k])
      requires h.offset < Bpc(vol.g) && 0 < todo && At(h.offset, k, Bpc(vol.g)) + todo <= |m.content|
      ensures 0 < |part| <= todo && h.offset + |part| <= Bpc(vol.g)
      ensures var a := At(h.offset, k, Bpc(vol.g));
        At(h.offset + |part|, k, Bpc(vol.g)) == a + |part| && part == m.content[a..a + |part|]
    {
      hide At, Bpc, MetaSound, DataAt;
      var clus := vol.ReadCluster(h.current);
      var avail := Bpc(vol.g) - h.offset;
      var n := if todo < avail then todo else avail;
      ReadFits(vol.g, h.offset, k, n);
      ReadBytes(vol.disk, vol.g, m, clus, k, h.offset, n);
      part := clus[h.offset..h.offset + n];
    }

    /** `exfat_read`: the next bytes of the file, up to its end. */
    method Read(h: Handle, size: nat, ghost k0: nat) returns (buf: seq<Byte>, ghost k: nat)
      requires Inv(-1) && Reads(h, k0)
      modifies h
      ensures Reads(h, k) && h.position == old(h.position) + |buf|
      ensures |buf| == if size <= h.size - old(h.position) then size else h.size - old(h.position)
      ensures buf == files[h.index].content[old(h.position)..h.position]
    {
      hide Fs, Epc, Marked, System, At, Slot, Bpc, Sane;
      ghost var content := files[h.index].content;
      var total := if h.position + size > h.size then h.size - h.position else size;
      var todo: nat := total;
      buf, k := [], k0;
      while todo > 0
        invariant Reads(h, k) && todo + |buf| == total && h.size == old(h.size) && Inv(-1)
        invariant h.position == old(h.position) + |buf| && buf == content[old(h.position)..h.position]
        decreases todo
      {
        var part;
        ghost var p := h.position;
        part, k := ReadRound(h, todo, k);
        assert content[old(h.position)..h.position] == content[old(h.position)..p] + content[p..h.position];
        buf := buf + part;
        todo := todo - |part|;
      }
    }

    /** `exfat_seek`: the handle stands in the right cluster, unless the position is the end
        of a file that fills its last cluster. Then it stands past that cluster, in one that
        is not the file's. */
    method Seek(h: Handle, pos: nat) returns (ghost k: nat)
      requires Inv(-1) && h.index in files && h.size == |files[h.index].content|
        && h.noFatChain == !files[h.index].linked
      requires files[h.index].chain != [] ==> h.first == files[h.index].chain[0]
      modifies h`position, h`current, h`offset
      ensures h.position == if pos > h.size then h.size else pos
      ensures var m := files[h.index];
        if 0 < h.position == Rows(|m.chain|, Bpc(vol.g))
          then h.offset == 0 && h.current == Past(m) && Past(m) !in m.chain && forall j :: !Reads(h, j)
        else Reads(h, k)
    {
      hide Fs, Epc, Marked, System, Slot, Bpc, MetaSound, MetaEntry, Sane, Cluster, Rows, At;
      SoundFile(vol.disk, vol.g, vol.reserved, vol.dir, files, owner, h.index);
      k := SeekFrom(h, if pos > h.size then h.size else pos, files[h.index]);
    }

    /** The loop of `exfat_seek`. */
    method SeekFrom(h: Handle, target: nat, ghost m: Meta) returns (ghost k: nat)
      requires Sane(vol.g) && MetaSound(vol.disk, vol.g, m) && target <= |m.content| && h.noFatChain == !m.linked
        && (m.chain != [] ==> h.first == m.chain[0])
      modifies h`position, h`current, h`offset
      ensures h.position == target && Landed(vol.g, m, target, h.current, h.offset, k)
    {
      hide Bpc, MetaSound, Sane, Landed;
      var rem: nat := target;
      h.position, h.current, h.offset := 0, h.first, 0;
      k := 0;
      SeekStart(vol.disk, vol.g, m, h.current, target);
      while rem > 0 && 2 <= h.current < EOC
        invariant Seeking(vol.g, m, h.position, h.current, k, rem, target) && h.offset == 0
        decreases rem
      {
        SeekStep(vol.disk, vol.g, m, h.position, h.current, k, rem, target);
        if rem < Bpc(vol.g) - h.offset {
          h.offset := h.offset + rem;
          h.position := h.position + rem;
          return;
        }
        var skip := Bpc(vol.g) - h.offset;
        rem := rem - skip;
        h.position := h.position + skip;
        if h.noFatChain {
          h.current := h.current + 1;
        } else {
          h.current := vol.GetFatEntry(h.current);
        }
        k := k + 1;
      }
      SeekEnd(vol.disk, vol.g, m, h.position, h.current, k, rem, target);
    }

    /** `exfat_seek` to the end of a file that fills its last cluster, and the first round of
        an `exfat_write` there. No cluster is allocated, as the offset is zero. The bytes go
        to a cluster that is not the file's, and if another file owns it, that file is
        broken as soon as its first byte there differs. */
    method SeekAndWrite(h: Handle, pos: nat, s: seq<Byte>, scratch: seq<Byte>) returns (n: nat)
      requires Inv(-1) && h.index in files && h.size == |files[h.index].content|
        && h.noFatChain == !files[h.index].linked
      requires files[h.index].chain != [] && h.first == files[h.index].chain[0]
      requires h.size <= pos && h.size == Rows(|files[h.index].chain|, Bpc(vol.g)) && s != [] && |scratch| == Bpc(vol.g)
      modifies vol`disk, h
      ensures 0 < n <= |s| && h.position == old(h.size) + n == h.size
      ensures Strayed(old(vol.disk), vol.disk, vol.g, files[h.index], s[..n])
      ensures Past(files[h.index]) in owner ==>
        owner[Past(files[h.index])] != h.index
          && Broken(old(vol.disk), vol.disk, vol.g, files, owner, Past(files[h.index]), s[0])
    {
      hide Fs, Epc, Marked, System, Slot, MetaSound, MetaEntry, Sane, Cluster, Rows, At, Strayed, Broken, Base,
        OnlyIn, Slice;
      ghost var m, d := files[h.index], vol.disk;
      SoundFile(d, vol.g, vol.reserved, vol.dir, files, owner, h.index);
      FullFile(d, vol.g, m);
      ghost var _ := Seek(h, pos);
      var avail := Bpc(vol.g) - h.offset;
      n := if |s| < avail then |s| else avail;
      vol.WriteBytes(h.current, h.offset, s[..n], scratch);
      StraysTo(d, vol.disk, vol.g, m, s[..n]);
      if Past(m) in owner {
        Breaks(d, vol.disk, vol.g, vol.reserved, vol.dir, files, owner, h.index, s[..n]);
      }
      h.position := h.position + n;
      h.offset := h.offset + n;
      if h.position > h.size {
        h.size := h.position;
      }
    }

    /** Writing a directory slot of file id, which is not among the files. */
    method PutSlot(id: nat, j: nat, e: seq<Byte>)
      requires Inv(id) && Clear(files, id) && HasSlot(vol.g, vol.dir, id + 2) && |e| == 32 && id <= j <= id + 2
      modifies vol
      ensures Inv(id) && Slot(vol.disk, vol.g, vol.dir, j) == e
      ensures forall i: nat {:trigger Slot(vol.disk, vol.g, vol.dir, i)} :: id <= i <= id + 2 && i != j ==>
        Slot(vol.disk, vol.g, vol.dir, i) == Slot(old(vol.disk), vol.g, vol.dir, i)
    {
      hide Sane, System, Marked, Fs, FatKept, DataKept, SlotsKept, Effect, Epc, SlotAt, Slot, Clear;
      DirProper(vol.disk, vol.g, vol.reserved, vol.dir);
      SlotBelow(vol.g, vol.dir, j, id + 2);
      var ok := vol.WriteDirEntry(j, e);
      SlotChange(old(vol.disk), vol.disk, vol.g, vol.reserved, vol.dir, j, Used(vol.reserved, owner));
      SlotEffect(old(vol.disk), vol.disk, vol.g, vol.reserved, vol.dir, files, owner, id, j);
    }

    /** Writing the three entries of a new file. */
    method PutSet(id: nat, file: seq<Byte>, stream: seq<Byte>, name: seq<Byte>)
      requires Inv(id) && Clear(files, id) && HasSlot(vol.g, vol.dir, id + 2)
      requires |file| == 32 && |stream| == 32 && |name| == 32
      modifies vol
      ensures Inv(id) && Slot(vol.disk, vol.g, vol.dir, id) == file && Slot(vol.disk, vol.g, vol.dir, id + 1) == stream
      ensures Slot(vol.disk, vol.g, vol.dir, id + 2) == name
    {
      hide Sane, System, Marked, Fs, Epc, Slot, Clear, HasSlot;
      PutSlot(id, id, file);
      PutSlot(id, id + 1, stream);
      PutSlot(id, id + 2, name);
    }

    /** `exfat_create`, once three free directory slots are found, for a name that fits one
        name entry. */
    method Create(id: nat, name: seq<Byte>) returns (h: Handle)
      requires Inv(-1) && FreeSlots(vol.disk, vol.g, vol.dir, id) && 0 < |name| <= 15
      modifies this, vol
      ensures Inv(-1) && files == old(files)[id := NEW] && owner == old(owner) && id !in old(files)
      ensures NewSet(vol.disk, vol.g, vol.dir, id, name)
      ensures fresh(h) && h.index == id && Ready(h)
    {
      hide Sane, System, Marked, Fs, Epc, Slot, Clear, ChecksumRight, HasSlot, NameEntry, SetTypes, SameButSum;
      FreeClear(vol.disk, vol.g, vol.reserved, vol.dir, files, owner, id);
      NotYet(vol.disk, vol.g, vol.reserved, vol.dir, files, owner, id);
      var stream := [0xC0, 1, 0, |name|] + seq(28, i => 0);
      PutSet(id, FILE_ENTRY, stream, NameEntry(name));
      SlotBelow(vol.g, vol.dir, id, id + 2);
      ghost var d := vol.disk;
      var ok := vol.UpdateChecksum(id, Used(vol.reserved, owner));
      NewStream(stream, |name|);
      CreateDone(d, vol.disk, vol.g, vol.reserved, vol.dir, files, owner, id, stream, name);
      files := files[id := NEW];
      h := new Handle(id, 0, 0, false);
    }

    /** `exfat_remove`, once the directory index is known: the clusters that become free
        are those of the file, and its entries are the same but no longer in use. */
    method Remove(id: nat)
      requires Inv(-1) && id in files
      modifies this, vol
      ensures Inv(-1) && files == old(files) - {id} && owner == old(owner) - Elements(old(files)[id].chain)
      ensures Used(vol.reserved, owner) == Used(vol.reserved, old(owner)) - Elements(old(files)[id].chain)
      ensures forall i: nat {:trigger Slot(vol.disk, vol.g, vol.dir, i)} :: id <= i <= id + 2 ==>
        Retired(Slot(old(vol.disk), vol.g, vol.dir, i), Slot(vol.disk, vol.g, vol.dir, i))
    {
      hide Sane, System, Marked, Fs, Epc, Slot, Clear, HasSlot, Effect, MetaSound, LeGet, Elements, Retired, NotSystem;
      ghost var m := files[id];
      Begin(vol.disk, vol.g, vol.reserved, vol.dir, files, owner, id);
      SoundFile(vol.disk, vol.g, vol.reserved, vol.dir, files, owner, id);
      HasSlots(vol.disk, vol.g, vol.reserved, vol.dir, files, owner, id);
      var e := StreamEntry(id);
      var ok, file := vol.ReadDirEntry(id);
      FileEntry(vol.disk, vol.g, vol.reserved, vol.dir, files, owner, id);
      ToFree(vol.disk, vol.g, vol.reserved, vol.dir, files, owner, id);
      vol.FreeChain(LeGet(e[20..24]), Bit(e[1], 1), LeGet(e[24..32]), Used(vol.reserved, owner), m.chain);
      Freed(old(vol.disk), vol.disk, vol.g, vol.reserved, vol.dir, files, owner, id);
      files := files - {id};
      owner := owner - Elements(m.chain);
      ghost var d1 := vol.disk;
      Retire(id, EntryCount(file));
      forall i: nat {:trigger Slot(vol.disk, vol.g, vol.dir, i)} | id <= i <= id + 2
        ensures Retired(Slot(old(vol.disk), vol.g, vol.dir, i), Slot(vol.disk, vol.g, vol.dir, i)) {
        assert i == id || i == id + 1 || i == id + 2;
        assert Slot(d1, vol.g, vol.dir, i) == Slot(old(vol.disk), vol.g, vol.dir, i);
      }
    }

    /** The loop of `exfat_remove` over the entry set. */
    method Retire(id: nat, n: nat)
      requires Inv(id) && Clear(files, id) && HasSlot(vol.g, vol.dir, id + 2) && NotSystem(vol.g, id) && n == 3
      modifies vol
      ensures Inv(-1)
      ensures forall i: nat {:trigger Slot(vol.disk, vol.g, vol.dir, i)} :: id <= i <= id + 2 ==>
        Retired(Slot(old(vol.disk), vol.g, vol.dir, i), Slot(vol.disk, vol.g, vol.dir, i))
    {
      hide Sane, System, Marked, Fs, Epc, Slot, Clear, HasSlot, Retired, NotSystem;
      for i := 0 to n
        invariant Inv(id)
        invariant forall j: nat {:trigger Slot(vol.disk, vol.g, vol.dir, j)} :: id <= j < id + i ==>
          Retired(Slot(old(vol.disk), vol.g, vol.dir, j), Slot(vol.disk, vol.g, vol.dir, j))
        invariant forall j: nat {:trigger Slot(vol.disk, vol.g, vol.dir, j)} :: id + i <= j <= id + 2 ==>
          Slot(vol.disk, vol.g, vol.dir, j) == Slot(old(vol.disk), vol.g, vol.dir, j)
      {
        SlotBelow(vol.g, vol.dir, id + i, id + 2);
        var ok, e := vol.ReadDirEntry(id + i);
        SetByteFits(e[0], 7);
        PutSlot(id, id + i, Patched(e, 0, [ClearBit(e[0], 7)]));
        RetiredIs(e);
      }
      AllAgain(old(vol.disk), vol.disk, vol.g, vol.reserved, vol.dir, files, owner, id);
    }
  }

  /** The same entry, no longer in use: bit 7 of its type is clear, and nothing else has
      changed. */
  ghost predicate Retired(e: seq<Byte>, e': seq<Byte>)
    requires |e| == 32 == |e'|
  {
    e'[1..] == e[1..] && !InUse(e') && forall j: nat {:trigger Bit(e'[0], j)} :: j != 7 ==>
      (Bit(e'[0], j) <==> Bit(e[0], j))
  }

  lemma {:induction false} RetiredIs(e: seq<Byte>)
    requires |e| == 32 && ClearBit(e[0], 7) < 256
    ensures Retired(e, Patched(e, 0, [ClearBit(e[0], 7)]))
  {
    hide Bit, ClearBit;
    var e' := Patched(e, 0, [ClearBit(e[0], 7)]);
    assert e'[0] == ClearBit(e[0], 7);
    forall j: nat ensures Bit(e'[0], j) <==> j != 7 && Bit(e[0], j) {
      ClearBitSpec(e[0], 7, j);
    }
  }

  /** The files other than id are as they were. */
  ghost predicate Others(files: map<nat, Meta>, files': map<nat, Meta>, id: nat)
  {
    files'.Keys == files.Keys && forall j {:trigger files'[j]} :: j in files && j != id ==> files'[j] == files[j]
  }

  /** The three slots from id on hold what they held. */
  ghost predicate SameSet(d: Disk, d': Disk, g: Geometry, dir: seq<nat>, id: nat)
  {
    && Slot(d', g, dir, id) == Slot(d, g, dir, id) && Slot(d', g, dir, id + 1) == Slot(d, g, dir, id + 1)
    && Slot(d', g, dir, id + 2) == Slot(d, g, dir, id + 2)
  }

  lemma {:induction false} StreamType(d: Disk, g: Geometry, reserved: set<nat>, dir: seq<nat>, files: map<nat, Meta>,
      owner: map<nat, nat>, id: nat)
    requires Fs(d, g, reserved, dir, files, owner, id) && id in files
    ensures Slot(d, g, dir, id + 1)[0] == 0xC0 && Slot(d, g, dir, id)[1] == 2
  {
    hide Slot;
    assert SetTypes(d, g, dir, id);
  }

  lemma {:induction false} StreamTypes(d: Disk, d': Disk, g: Geometry, reserved: set<nat>, dir: seq<nat>,
      files: map<nat, Meta>, owner: map<nat, nat>, id: nat)
    requires Fs(d, g, reserved, dir, files, owner, id) && id in files
    requires SameButSum(Slot(d, g, dir, id), Slot(d', g, dir, id)) && Slot(d', g, dir, id + 1)[0] == 0xC0
    requires Slot(d', g, dir, id + 2) == Slot(d, g, dir, id + 2)
    ensures SetTypes(d', g, dir, id)
  {
    hide Slot;
    assert SetTypes(d, g, dir, id);
    SumKeeps(Slot(d, g, dir, id), Slot(d', g, dir, id));
  }

  lemma {:induction false} SumKeeps(e: seq<Byte>, e': seq<Byte>)
    requires |e| == 32 == |e'| && SameButSum(e, e')
    ensures e'[0] == e[0] && e'[1] == e[1]
  {
    assert e'[0] == e'[..2][0] && e'[1] == e'[..2][1];
  }

  lemma {:induction false} TypesKept(d: Disk, d': Disk, g: Geometry, reserved: set<nat>, dir: seq<nat>,
      files: map<nat, Meta>, owner: map<nat, nat>, id: nat)
    requires Fs(d, g, reserved, dir, files, owner, id) && id in files && SameSet(d, d', g, dir, id)
    ensures SetTypes(d', g, dir, id)
  {
    hide Slot;
    assert SetTypes(d, g, dir, id);
  }

  lemma {:induction false} SlotsSame(d: Disk, d': Disk, g: Geometry, dir: seq<nat>, id: nat)
    requires SlotsKept(d, d', g, dir, {}) && HasSlot(g, dir, id + 2)
    ensures SameSet(d, d', g, dir, id)
  {
  }

  lemma {:induction false} OwnCluster(d: Disk, g: Geometry, reserved: set<nat>, dir: seq<nat>, files: map<nat, Meta>,
      owner: map<nat, nat>, id: nat, c: nat)
    requires Fs(d, g, reserved, dir, files, owner, id) && c in owner && owner[c] == id
    ensures Cluster(g, c) && c !in reserved && Private(reserved, owner, {c}, id)
  {
  }

  /** A change of a FAT entry outside the system's clusters. */
  lemma {:induction false} FatEffect(d: Disk, d': Disk, g: Geometry, reserved: set<nat>, dir: seq<nat>,
      used: set<nat>, id: nat, c: nat)
    requires Sane(g) && System(d, g, reserved, dir) && Epc(g) > 0 && Marked(d, g, used) && c !in reserved
      && HasSlot(g, dir, id + 2)
    requires FatKept(d, d', g, {c}) && DataKept(d, d', g, {})
    ensures System(d', g, reserved, dir) && Marked(d', g, used) && Effect(d, d', g, reserved, dir, {c}, SlotsOf(id))
    ensures SameSet(d, d', g, dir, id)
  {
    SystemFrame(d, d', g, reserved, dir, {c});
    BitsFrame(d, d', g, {}, used);
    SlotsFrame(d, d', g, dir, {});
    SlotsSame(d, d', g, dir, id);
    KeptMore(d, d', g, {}, {c} + reserved);
    hide FatKept, DataKept, SlotsKept;
    FewerSlots(d, d', g, dir, SlotsOf(id));
  }

  lemma {:induction false} FewerSlots(d: Disk, d': Disk, g: Geometry, dir: seq<nat>, Y: set<nat>)
    requires SlotsKept(d, d', g, dir, {})
    ensures SlotsKept(d, d', g, dir, Y)
  {
  }

  /** A change inside a cluster of a file. */
  lemma {:induction false} DataEffect(d: Disk, d': Disk, g: Geometry, reserved: set<nat>, dir: seq<nat>,
      used: set<nat>, id: nat, c: nat, off: nat, n: nat)
    requires Sane(g) && System(d, g, reserved, dir) && Epc(g) > 0 && Marked(d, g, used) && Cluster(g, c)
      && c !in reserved && HasSlot(g, dir, id + 2)
    requires off + n <= Bpc(g) && OnlyIn(d, d', Base(g, c) + off, n)
    ensures System(d', g, reserved, dir) && Marked(d', g, used) && Effect(d, d', g, reserved, dir, {c}, SlotsOf(id))
      && FatKept(d, d', g, {})
    ensures SameSet(d, d', g, dir, id)
  {
    DataChange(d, d', g, c, off, n);
    SystemFrame(d, d', g, reserved, dir, {});
    BitsFrame(d, d', g, {c}, used);
    SlotsFrame(d, d', g, dir, {c});
    SlotsSame(d, d', g, dir, id);
    KeptMore(d, d', g, {}, {c});
    KeptMore(d, d', g, {c}, {c} + reserved);
    hide FatKept, DataKept, SlotsKept;
    FewerSlots(d, d', g, dir, SlotsOf(id));
  }

  lemma {:induction false} BpcPositive(g: Geometry)
    requires Sane(g)
    ensures Bpc(g) >= 64
  {
  }

  /** Only an empty file has no first cluster. */
  lemma {:induction false} NoCluster(d: Disk, g: Geometry, m: Meta, first: nat, current: nat, offset: nat, size: nat,
      position: nat, contiguous: bool)
    requires Appending(d, g, m, first, current, offset, size, position, contiguous)
    ensures first == 0 <==> m.chain == []
  {
    if m.chain != [] {
      assert Cluster(g, m.chain[0]);
    }
  }

  lemma {:induction false} LastOfChain(d: Disk, g: Geometry, reserved: set<nat>, dir: seq<nat>, files: map<nat, Meta>,
      owner: map<nat, nat>, id: nat, off: nat)
    requires Fs(d, g, reserved, dir, files, owner, id) && id in files && Growing(d, g, files[id], off)
    ensures var c := files[id].chain[|files[id].chain| - 1]; c in owner && owner[c] == id
  {
    assert files[id].chain[|files[id].chain| - 1] in owner;
  }

  lemma {:induction false} GrowingMore(d: Disk, d': Disk, g: Geometry, m: Meta, off: nat, s: seq<Byte>)
    requires Growing(d, g, m, off) && off + |s| <= Bpc(g) && FatKept(d, d', g, {})
    requires var c := m.chain[|m.chain| - 1];
      OnlyIn(d, d', Base(g, c) + off, |s|) && Slice(d', Base(g, c) + off, |s|) == s
    ensures Growing(d', g, m.(content := m.content + s), off + |s|)
  {
    LinkedFrame(d, d', g, m.chain, m.linked, {});
    HoldsMore(d, d', g, m.chain, m.content, off, s);
  }

  /** A sound file can be appended to. */
  lemma {:induction false} Begin(d: Disk, g: Geometry, reserved: set<nat>, dir: seq<nat>, files: map<nat, Meta>,
      owner: map<nat, nat>, id: nat)
    requires id in files && Fs(d, g, reserved, dir, files, owner, -1)
    ensures Fs(d, g, reserved, dir, files, owner, id)
  {
    FsWhole(d, g, reserved, dir, files, owner, id);
  }

  lemma {:induction false} SoundFile(d: Disk, g: Geometry, reserved: set<nat>, dir: seq<nat>, files: map<nat, Meta>,
      owner: map<nat, nat>, id: nat)
    requires id in files && Fs(d, g, reserved, dir, files, owner, -1)
    ensures MetaSound(d, g, files[id]) && MetaEntry(Slot(d, g, dir, id + 1), files[id])
  {
    assert FileSound(d, g, dir, id, files[id]);
  }

  lemma {:induction false} AtStart(g: Geometry, m: Meta)
    ensures At(0, 0, Bpc(g)) == 0
  {
  }

  /** With bytes left there is a next cluster, and the FAT or the run leads to it. */
  lemma {:induction false} MoreClusters(d: Disk, g: Geometry, m: Meta, off: nat, k: nat)
    requires Sane(g) && MetaSound(d, g, m) && At(off, k, Bpc(g)) < |m.content| && off <= Bpc(g)
    ensures m.chain != [] && (k < |m.chain| ==> Cluster(g, m.chain[k]))
    ensures off >= Bpc(g) ==>
      k + 1 < |m.chain| && m.chain[k + 1] < EOC && Cluster(g, m.chain[k + 1])
      && At(off, k, Bpc(g)) == At(0, k + 1, Bpc(g))
    ensures off >= Bpc(g) ==> m.chain[k + 1] == if m.linked then FatAt(d, g, m.chain[k]) else m.chain[k] + 1
  {
    RowsNext(k, Bpc(g));
    if off >= Bpc(g) && |m.chain| <= k + 1 {
      RowsMonotone(|m.chain|, k + 1, Bpc(g));
    }
    if k + 1 < |m.chain| {
      assert Cluster(g, m.chain[k]) && Cluster(g, m.chain[k + 1]);
    }
  }

  lemma {:induction false} ReadFits(g: Geometry, off: nat, k: nat, n: nat)
    ensures At(off + n, k, Bpc(g)) == At(off, k, Bpc(g)) + n
  {
  }

  lemma {:induction false} ReadBytes(d: Disk, g: Geometry, m: Meta, clus: seq<Byte>, k: nat, off: nat, n: nat)
    requires MetaSound(d, g, m) && k < |m.chain| && |clus| == Bpc(g) && forall i: nat {:trigger clus[i]} ::
      i < Bpc(g) ==> clus[i] == DataAt(d, g, m.chain[k], i)
    requires off + n <= Bpc(g) && At(off, k, Bpc(g)) + n <= |m.content|
    ensures clus[off..off + n] == m.content[At(off, k, Bpc(g))..At(off, k, Bpc(g)) + n]
  {
    var a := At(off, k, Bpc(g));
    var part := clus[off..off + n];
    forall j: nat {:trigger part[j]} | j < n ensures part[j] == m.content[a..a + n][j] {
      assert At(off + j, k, Bpc(g)) == a + j;
      assert DataAt(d, g, m.chain[k], off + j) == m.content[At(off + j, k, Bpc(g))];
      assert clus[off + j] == DataAt(d, g, m.chain[k], off + j);
    }
  }

  /** The cluster number that follows the last of a file. */
  function Past(m: Meta): nat
  {
    if m.chain == [] then 0 else if m.linked then EOC else m.chain[|m.chain| - 1] + 1
  }

  /** Between two rounds of the loop of `exfat_seek`: k whole clusters are behind. */
  ghost predicate Seeking(g: Geometry, m: Meta, position: nat, current: nat, k: nat, rem: nat, target: nat)
  {
    && rem + position == target <= |m.content| && position == Rows(k, Bpc(g)) && k <= |m.chain|
    && (m.chain != [] ==> current == if k < |m.chain| then m.chain[k] else Past(m))
  }

  lemma {:induction false} SeekStart(d: Disk, g: Geometry, m: Meta, current: nat, target: nat)
    requires MetaSound(d, g, m) && target <= |m.content| && (m.chain != [] ==> current == m.chain[0])
    ensures Seeking(g, m, 0, current, 0, target, target)
  {
  }

  /** Where the loop stops. */
  ghost predicate Landed(g: Geometry, m: Meta, position: nat, current: nat, offset: nat, k: nat)
  {
    && At(offset, k, Bpc(g)) == position && offset < Bpc(g)
    && if 0 < position == Rows(|m.chain|, Bpc(g))
         then offset == 0 && current == Past(m) && Past(m) !in m.chain && forall j: nat {:trigger At(0, j, Bpc(g))} ::
         At(0, j, Bpc(g)) == position ==> j >= |m.chain| > 0
       else m.chain != [] ==> k < |m.chain| && current == m.chain[k]
  }

  /** With bytes to go there is a cluster to stand in, and a next one after it. */
  lemma {:induction false} SeekStep(d: Disk, g: Geometry, m: Meta, position: nat, current: nat, k: nat, rem: nat,
      target: nat)
    requires Sane(g) && MetaSound(d, g, m) && Seeking(g, m, position, current, k, rem, target) && rem > 0
    ensures k < |m.chain| && Bpc(g) > 0 && Cluster(g, current)
    ensures rem < Bpc(g) ==> Landed(g, m, position + rem, current, rem, k)
    ensures rem >= Bpc(g) ==> Seeking(g, m, position + Bpc(g), if m.linked then FatAt(d, g, current)
      else current + 1, k + 1, rem - Bpc(g), target)
  {
    RowsNext(k, Bpc(g));
    if k < |m.chain| {
      RowsMonotone(k + 1, |m.chain|, Bpc(g));
    }
  }

  lemma {:induction false} SeekEnd(d: Disk, g: Geometry, m: Meta, position: nat, current: nat, k: nat, rem: nat,
      target: nat)
    requires Sane(g) && MetaSound(d, g, m) && Seeking(g, m, position, current, k, rem, target)
      && !(rem > 0 && 2 <= current < EOC)
    ensures position == target && Landed(g, m, target, current, 0, k)
  {
    if rem > 0 {
      SeekStep(d, g, m, position, current, k, rem, target);
    }
    forall j: nat {:trigger At(0, j, Bpc(g))} | At(0, j, Bpc(g)) == position ensures j == k {
      if j < k {
        RowsMonotone(j, k, Bpc(g));
      } else if k < j {
        RowsMonotone(k, j, Bpc(g));
      }
    }
    if k < |m.chain| {
      RowsMonotone(k, |m.chain|, Bpc(g));
    }
    PastOutside(d, g, m);
  }

  lemma {:induction false} PastOutside(d: Disk, g: Geometry, m: Meta)
    requires Sane(g) && MetaSound(d, g, m)
    ensures m.chain != [] ==> Past(m) !in m.chain
  {
    forall i | 0 <= i < |m.chain| ensures m.chain[i] != Past(m) {
      assert Cluster(g, m.chain[i]);
    }
  }

  /** The bytes s are in a cluster that is not of the file, whose own clusters are as they
      were. */
  ghost predicate Strayed(d: Disk, d': Disk, g: Geometry, m: Meta, s: seq<Byte>)
  {
    && Past(m) !in m.chain && OnlyIn(d, d', Base(g, Past(m)), |s|) && Slice(d', Base(g, Past(m)), |s|) == s
    && forall k {:trigger m.chain[k]} :: 0 <= k < |m.chain| ==> SameData(d, d', g, m.chain[k])
  }

  /** Cluster c is of another file, which is not sound on disk d' if its byte at the start
      of c is not b. */
  ghost predicate Broken(d: Disk, d': Disk, g: Geometry, files: map<nat, Meta>, owner: map<nat, nat>, c: nat, b: Byte)
    requires c in owner
  {
    owner[c] in files && (DataAt(d, g, c, 0) != b ==> !MetaSound(d', g, files[owner[c]]))
  }

  lemma {:induction false} FullFile(d: Disk, g: Geometry, m: Meta)
    requires Sane(g) && MetaSound(d, g, m) && m.chain != []
    ensures 0 < |m.content| && 0 < Bpc(g) && 2 <= Past(m) && Past(m) !in m.chain
  {
    assert Cluster(g, m.chain[|m.chain| - 1]);
    PastOutside(d, g, m);
  }

  lemma {:induction false} StraysTo(d: Disk, d': Disk, g: Geometry, m: Meta, s: seq<Byte>)
    requires Sane(g) && MetaSound(d, g, m) && m.chain != [] && |s| <= Bpc(g)
    requires OnlyIn(d, d', Base(g, Past(m)), |s|) && Slice(d', Base(g, Past(m)), |s|) == s
    ensures Strayed(d, d', g, m, s)
  {
    FullFile(d, g, m);
    DataChange(d, d', g, Past(m), 0, |s|);
    hide Sane, OnlyIn, Slice, Base, SameData, Past;
    forall k {:trigger m.chain[k]} | 0 <= k < |m.chain| ensures SameData(d, d', g, m.chain[k]) {
      assert Cluster(g, m.chain[k]) && m.chain[k] != Past(m);
    }
  }

  lemma {:induction false} Breaks(d: Disk, d': Disk, g: Geometry, reserved: set<nat>, dir: seq<nat>, files: map<nat,
      Meta>, owner: map<nat, nat>,
                                  id: nat, s: seq<Byte>)
    requires Sane(g) && Fs(d, g, reserved, dir, files, owner, -1) && id in files && files[id].chain != [] && s != []
    requires Past(files[id]) in owner && Strayed(d, d', g, files[id], s)
    ensures owner[Past(files[id])] != id && Broken(d, d', g, files, owner, Past(files[id]), s[0])
  {
    var c := Past(files[id]);
    hide Sane, OwnerRange, Spaced, Past, Base, OnlyIn;
    var other := owner[c];
    assert c in files[other].chain;
    assert FileSound(d, g, dir, other, files[other]);
    FirstByte(d', g, c, s);
    var k: nat :| k < |files[other].chain| && files[other].chain[k] == c;
    if MetaSound(d', g, files[other]) {
      OneByte(d, d', g, files[other], k);
    }
  }

  lemma {:induction false} FirstByte(d: Disk, g: Geometry, c: nat, s: seq<Byte>)
    requires s != [] && Slice(d, Base(g, c), |s|) == s
    ensures DataAt(d, g, c, 0) == s[0]
  {
    hide Base;
    assert Slice(d, Base(g, c), |s|)[0] == s[0];
  }

  /** A sound file determines the first byte of each of its clusters. */
  lemma {:induction false} OneByte(d: Disk, d': Disk, g: Geometry, m: Meta, k: nat)
    requires MetaSound(d, g, m) && MetaSound(d', g, m) && k < |m.chain|
    ensures DataAt(d', g, m.chain[k], 0) == DataAt(d, g, m.chain[k], 0)
  {
    RowsMonotone(k, |m.chain| - 1, Bpc(g));
    assert At(0, k, Bpc(g)) < |m.content|;
  }

  lemma {:induction false} SlotBelow(g: Geometry, dir: seq<nat>, i: nat, j: nat)
    requires HasSlot(g, dir, j) && i <= j
    ensures HasSlot(g, dir, i)
  {
  }

  lemma {:induction false} SlotEffect(d: Disk, d': Disk, g: Geometry, reserved: set<nat>, dir: seq<nat>,
      files: map<nat, Meta>, owner: map<nat, nat>, id: nat, j: nat)
    requires Fs(d, g, reserved, dir, files, owner, id) && Clear(files, id) && id <= j <= id + 2
      && HasSlot(g, dir, id + 2)
    requires FatKept(d, d', g, {}) && DataKept(d, d', g, reserved) && SlotsKept(d, d', g, dir, {j})
    ensures Fs(d', g, reserved, dir, files, owner, id)
    ensures forall i: nat {:trigger Slot(d', g, dir, i)} :: id <= i <= id + 2 && i != j ==>
      Slot(d', g, dir, i) == Slot(d, g, dir, i)
  {
    var none: set<nat> := {};
    assert none + reserved == reserved;
    assert Effect(d, d', g, reserved, dir, {}, {j});
    EffectMore(d, d', g, reserved, dir, {}, {j}, {}, SlotsOf(id));
    FsFrame(d, d', g, reserved, dir, files, owner, id, {});
  }

  lemma {:induction false} NotYet(d: Disk, g: Geometry, reserved: set<nat>, dir: seq<nat>, files: map<nat, Meta>,
      owner: map<nat, nat>, id: nat)
    requires Fs(d, g, reserved, dir, files, owner, -1)
    ensures Fs(d, g, reserved, dir, files, owner, id)
  {
  }

  lemma {:induction false} ZeroBytes(s: seq<Byte>)
    requires forall i :: 0 <= i < |s| ==> s[i] == 0
    ensures LeGet(s) == 0
  {
    if s != [] {
      ZeroBytes(s[1..]);
    }
  }

  /** Three slots of the directory that are not in use. */
  ghost predicate FreeSlots(d: Disk, g: Geometry, dir: seq<nat>, id: nat)
  {
    && HasSlot(g, dir, id + 2) && !InUse(Slot(d, g, dir, id)) && !InUse(Slot(d, g, dir, id + 1))
    && !InUse(Slot(d, g, dir, id + 2))
  }

  /** They are no file's. */
  lemma {:induction false} FreeClear(d: Disk, g: Geometry, reserved: set<nat>, dir: seq<nat>, files: map<nat, Meta>,
      owner: map<nat, nat>, id: nat)
    requires Fs(d, g, reserved, dir, files, owner, -1) && FreeSlots(d, g, dir, id)
    ensures Clear(files, id) && NotSystem(g, id) && id !in files
  {
    hide Slot, Owned, OthersSound, Typed;
    assert SlotRight(d, g, dir, files, id) && SlotRight(d, g, dir, files, id + 1)
      && SlotRight(d, g, dir, files, id + 2);
    SlotBelow(g, dir, id, id + 2);
    SlotBelow(g, dir, id + 1, id + 2);
    forall i {:trigger i in files} | i in files ensures id + 3 <= i || i + 3 <= id {
      assert InSet(files, i) && InSet(files, i + 1) && InSet(files, i + 2);
    }
  }

  /** A file entry with two more entries, for a plain file. */
  const FILE_ENTRY: seq<Byte> :=
    [0x85, 2, 0, 0, 0x20, 0, 0, 0, 0, 0, 0, 0, 0, 0, 0, 0, 0, 0, 0, 0, 0, 0, 0, 0, 0, 0, 0, 0, 0, 0, 0, 0]

  /** The name entry for up to fifteen characters, each extended with its sign. */
  function NameEntry(name: seq<Byte>): (e: seq<Byte>)
    ensures |e| == 32 && e[0] == 0xC1
  {
    [0xC1, 0] + seq<Byte>(30, (i: nat) =>
      if i / 2 >= |name| then 0 else if i % 2 == 0 then name[i / 2] else if name[i / 2] >= 128 then 255 else 0)
  }

  /** The entry set of a new file. */
  ghost predicate NewSet(d: Disk, g: Geometry, dir: seq<nat>, id: nat, name: seq<Byte>)
    requires |name| < 256
  {
    && SameButSum(FILE_ENTRY, Slot(d, g, dir, id))
    && Slot(d, g, dir, id + 1) == [0xC0, 1, 0, |name|] + seq(28, i => 0) && Slot(d, g, dir, id + 2) == NameEntry(name)
  }

  lemma {:induction false} NewStream(e: seq<Byte>, nameLength: Byte)
    requires e == [0xC0, 1, 0, nameLength] + seq(28, i => 0)
    ensures |e| == 32 && MetaEntry(e, NEW)
  {
    ZeroBytes(e[8..16]);
    ZeroBytes(e[20..24]);
    ZeroBytes(e[24..32]);
    assert Shr(1, 1) == Shr(0, 0) == 0;
    assert e[1] == 1;
  }

  lemma {:induction false} CreateDone(d: Disk, d': Disk, g: Geometry, reserved: set<nat>, dir: seq<nat>,
      files: map<nat, Meta>, owner: map<nat, nat>, id: nat, stream: seq<Byte>, name: seq<Byte>)
    requires Fs(d, g, reserved, dir, files, owner, id) && Clear(files, id) && HasSlot(g, dir, id + 2)
      && NotSystem(g, id)
    requires FatKept(d, d', g, {}) && DataKept(d, d', g, reserved) && SlotsKept(d, d', g, dir, {id})
    requires |stream| == 32 && stream[0] == 0xC0 && MetaEntry(stream, NEW) && Slot(d, g, dir, id + 1) == stream
    requires Slot(d, g, dir, id) == FILE_ENTRY && Slot(d, g, dir, id + 2) == NameEntry(name)
    requires SameButSum(FILE_ENTRY, Slot(d', g, dir, id)) && ChecksumRight(d', g, dir, id)
    ensures Fs(d', g, reserved, dir, files[id := NEW], owner, -1) && Slot(d', g, dir, id + 1) == stream
    ensures Slot(d', g, dir, id + 2) == NameEntry(name)
  {
    SlotEffect(d, d', g, reserved, dir, files, owner, id, id);
    hide Fs, Slot, FatKept, DataKept, SlotsKept, NameEntry;
    SumKeeps(FILE_ENTRY, Slot(d', g, dir, id));
    FsNew(d', g, reserved, dir, files, owner, id);
  }

  lemma {:induction false} FileEntry(d: Disk, g: Geometry, reserved: set<nat>, dir: seq<nat>, files: map<nat, Meta>,
      owner: map<nat, nat>, id: nat)
    requires id in files && Fs(d, g, reserved, dir, files, owner, -1)
    ensures EntryCount(Slot(d, g, dir, id)) == 3
  {
    assert FileSound(d, g, dir, id, files[id]);
  }

  lemma {:induction false} ToFree(d: Disk, g: Geometry, reserved: set<nat>, dir: seq<nat>, files: map<nat, Meta>,
      owner: map<nat, nat>, id: nat)
    requires id in files && Fs(d, g, reserved, dir, files, owner, -1)
    ensures var m := files[id];
      ExfatState.Proper(g, m.chain) && Linked(d, g, m.chain, m.linked)
      && Sized(g, m.chain, |m.content|)
    ensures forall k :: 0 <= k < |files[id].chain| ==> files[id].chain[k] !in reserved
  {
    assert FileSound(d, g, dir, id, files[id]);
    forall k | 0 <= k < |files[id].chain| ensures files[id].chain[k] !in reserved {
      assert files[id].chain[k] in owner;
    }
  }

  lemma {:induction false} Freed(d: Disk, d': Disk, g: Geometry, reserved: set<nat>, dir: seq<nat>, files: map<nat,
      Meta>, owner: map<nat, nat>, id: nat)
    requires id in files && Fs(d, g, reserved, dir, files, owner, id)
      && Effect(d, d', g, reserved, dir, Elements(files[id].chain), {})
    ensures Fs(d', g, reserved, dir, files - {id}, owner - Elements(files[id].chain), id) && Clear(files - {id}, id)
    ensures Used(reserved, owner - Elements(files[id].chain)) == Used(reserved, owner) - Elements(files[id].chain)
    ensures SameSet(d, d', g, dir, id)
  {
    var X := Elements(files[id].chain);
    OwnPrivate(reserved, g, files, owner, id);
    HasSlots(d, g, reserved, dir, files, owner, id);
    EffectMore(d, d', g, reserved, dir, X, {}, X, SlotsOf(id));
    SlotsSame(d, d', g, dir, id);
    TypesKept(d, d', g, reserved, dir, files, owner, id);
    FsFrame(d, d', g, reserved, dir, files, owner, id, X);
    FsDrop(d', g, reserved, dir, files, owner, id);
    assert X !! reserved;
    hide Fs, Effect, Elements, Clear;
    assert Used(reserved, owner - X) == Used(reserved, owner) - X;
  }

  lemma {:induction false} AllAgain(d: Disk, d': Disk, g: Geometry, reserved: set<nat>, dir: seq<nat>,
      files: map<nat, Meta>, owner: map<nat, nat>, id: nat)
    requires Fs(d', g, reserved, dir, files, owner, id) && Clear(files, id) && NotSystem(g, id)
    requires forall i: nat {:trigger Slot(d', g, dir, i)} :: id <= i <= id + 2 ==>
      Retired(Slot(d, g, dir, i), Slot(d', g, dir, i))
    ensures Fs(d', g, reserved, dir, files, owner, -1)
  {
    assert id !in files;
    DirectoryFreed(d', g, dir, files, id);
    hide Directory, Typed, Owned, OwnerRange, Spaced;
  }

  lemma {:induction false} SizeFits(d: Disk, g: Geometry, m: Meta, first: nat, current: nat, offset: nat, size: nat,
      position: nat, contiguous: bool)
    requires Sane(g) && Appending(d, g, m, first, current, offset, size, position, contiguous)
    ensures size < 0x1_0000_0000_0000_0000
  {
    if m.chain != [] {
      Pigeonhole(m.chain, g.count + 2);
      RowsMonotone(|m.chain| - 1, 0x1_0000_0000, Bpc(g));
      Product(0x1_0000_0000, Bpc(g));
    }
  }

  lemma {:induction false} SizeStored(e: seq<Byte>, first: nat, contiguous: bool, size: nat)
    requires |e| == 32 && Head(e, first, contiguous) && size < 0x1_0000_0000_0000_0000
    ensures StreamSays(Patched(Patched(e, 8, LePut(size, 8)), 24, LePut(size, 8)), first, contiguous, size)
  {
    var v := LePut(size, 8);
    var e1 := Patched(e, 8, v);
    var e2 := Patched(e1, 24, v);
    FitsEight(size);
    LeRoundTrip(size, 8);
    PatchedIs(e1, 24, v);
    PatchedIs(e, 8, v);
    PatchedElse(e1, 24, v, 8, 16);
    PatchedElse(e, 8, v, 20, 24);
    PatchedElse(e1, 24, v, 20, 24);
    PatchedElse(e, 8, v, 1, 2);
    PatchedElse(e1, 24, v, 1, 2);
    assert e2[1] == e2[1..2][0] == e1[1..2][0] == e[1..2][0] == e[1];
  }

  /** With its length in the stream entry the file is sound. */
  lemma {:induction false} Closed(d: Disk, d': Disk, g: Geometry, reserved: set<nat>, dir: seq<nat>, files: map<nat,
      Meta>, owner: map<nat, nat>, id: nat,
                                  first: nat, current: nat, offset: nat, size: nat, position: nat, contiguous: bool)
    requires id in files && Fs(d, g, reserved, dir, files, owner, id) && Fs(d', g, reserved, dir, files, owner, id)
      && HasSlot(g, dir, id + 2)
    requires Appending(d, g, files[id], first, current, offset, size, position, contiguous)
      && (files[id].chain != [] ==> offset > 0)
    requires Effect(d, d', g, reserved, dir, {}, SlotsOf(id))
    requires StreamSays(Slot(d', g, dir, id + 1), first, contiguous, size)
      && ChecksumRight(d', g, dir, id)
    ensures Fs(d', g, reserved, dir, files, owner, -1)
    ensures Appending(d', g, files[id], first, current, offset, size, position, contiguous)
      && Head(Slot(d', g, dir, id + 1), first, contiguous)
  {
    hide Fs, Effect, Slot, ChecksumRight, Holds, Linked, LeGet, Bit, ExfatState.Proper;
    var m := files[id];
    if m.chain != [] {
      OwnFrame(d, d', g, reserved, dir, files, owner, id, offset);
      RowsNext(|m.chain| - 1, Bpc(g));
    } else {
      EmptySound(d', g, m);
    }
    StreamType(d', g, reserved, dir, files, owner, id);
    FsWhole(d', g, reserved, dir, files, owner, id);
  }

  lemma {:induction false} EmptySound(d: Disk, g: Geometry, m: Meta)
    requires m.chain == [] && m.content == [] && m.linked
    ensures MetaSound(d, g, m)
  {
  }

  lemma {:induction false} FullLast(d: Disk, g: Geometry, m: Meta, off: nat)
    requires Growing(d, g, m, off) && off >= Bpc(g)
    ensures off == Bpc(g)
  {
  }

  lemma {:induction false} LastEnds(d: Disk, g: Geometry, m: Meta, off: nat)
    requires Growing(d, g, m, off) && m.linked && off >= Bpc(g)
    ensures FatAt(d, g, m.chain[|m.chain| - 1]) == EOC && off == Bpc(g)
  {
  }

  /** The bytes and links of a file outlive changes elsewhere. */
  lemma {:induction false} GrowingFrame(d: Disk, d': Disk, g: Geometry, m: Meta, off: nat, X: set<nat>, Y: set<nat>)
    requires Growing(d, g, m, off) && FatKept(d, d', g, X) && DataKept(d, d', g, Y)
    requires forall k :: 0 <= k < |m.chain| ==> m.chain[k] !in X && m.chain[k] !in Y
    ensures Growing(d', g, m, off)
  {
    LinkedFrame(d, d', g, m.chain, m.linked, X);
    HoldsFrame(d, d', g, m.chain, m.content, Y);
  }

  lemma {:induction false} GrowingKept(d: Disk, d': Disk, g: Geometry, reserved: set<nat>, dir: seq<nat>,
      files: map<nat, Meta>, owner: map<nat, nat>, id: nat, c: nat, off: nat)
    requires Fs(d, g, reserved, dir, files, owner, id) && id in files && Growing(d, g, files[id], off)
      && Effect(d, d', g, reserved, dir, {c}, {})
    requires c !in Used(reserved, owner)
    ensures Growing(d', g, files[id], off) && c !in files[id].chain
  {
    var m := files[id];
    forall k | 0 <= k < |m.chain| ensures m.chain[k] != c && m.chain[k] !in reserved {
      assert files[id].chain[k] in owner;
    }
    GrowingFrame(d, d', g, m, off, {c}, {c} + reserved);
  }

  lemma {:induction false} LastOwned(d: Disk, g: Geometry, reserved: set<nat>, dir: seq<nat>, files: map<nat, Meta>,
      owner: map<nat, nat>, id: nat, chain: seq<nat>, c: nat)
    requires Fs(d, g, reserved, dir, files, owner, id) && id in files && chain != [] && files[id].chain == chain + [c]
    ensures chain[|chain| - 1] in owner && owner[chain[|chain| - 1]] == id && c in owner && owner[c] == id
  {
    assert files[id].chain[|chain| - 1] in owner && files[id].chain[|chain|] in owner;
  }

  /** One more cluster, still empty. */
  lemma {:induction false} OneMore(d: Disk, g: Geometry, m: Meta, c: nat, linked: bool)
    requires m.chain != [] && ExfatState.Proper(g, m.chain + [c]) && ExfatState.Proper(g, m.chain)
      && Linked(d, g, m.chain + [c], linked)
    requires |m.content| == At(Bpc(g), |m.chain| - 1, Bpc(g)) && Holds(d, g, m.chain, m.content)
    ensures Growing(d, g, Meta(m.chain + [c], linked, m.content), 0)
  {
    RowsNext(|m.chain| - 1, Bpc(g));
    HoldsGrows(d, g, m.chain, c, m.content);
  }

  lemma {:induction false} ChainLonger(d: Disk, d': Disk, g: Geometry, m: Meta, c: nat)
    requires Growing(d, g, m, Bpc(g)) && m.linked && Cluster(g, c) && c !in m.chain && FatAt(d, g, c) == EOC
    requires var last := m.chain[|m.chain| - 1];
      FatKept(d, d', g, {last}) && FatAt(d', g, last) == c && DataKept(d, d', g, {})
    ensures Growing(d', g, m.(chain := m.chain + [c]), 0)
  {
    var last := m.chain[|m.chain| - 1];
    assert FatAt(d', g, c) == EOC;
    KeptMore(d, d', g, {last}, {last, c});
    ChainGrows(d, d', g, m.chain, c);
    HoldsFrame(d, d', g, m.chain, m.content, {});
    OneMore(d', g, m, c, true);
  }

  lemma {:induction false} RunLonger(d: Disk, g: Geometry, m: Meta, c: nat)
    requires Growing(d, g, m, Bpc(g)) && !m.linked && Cluster(g, c) && c !in m.chain && c == m.chain[|m.chain| - 1] + 1
    ensures Growing(d, g, m.(chain := m.chain + [c]), 0)
  {
    RunGrows(g, m.chain, c);
    OneMore(d, g, m, c, false);
  }

  lemma {:induction false} SameDataNow(d: Disk, g: Geometry)
    ensures DataKept(d, d, g, {})
  {
  }

  lemma {:induction false} RunFacts(d: Disk, g: Geometry, reserved: set<nat>, dir: seq<nat>, files: map<nat, Meta>,
      owner: map<nat, nat>, id: nat, m: Meta, next: nat)
    requires Growing(d, g, m, Bpc(g)) && !m.linked && Fs(d, g, reserved, dir, files, owner, id)
    ensures m.chain[0] <= m.chain[|m.chain| - 1] == m.chain[0] + |m.chain| - 1
    ensures Contiguous(m.chain) && ExfatState.Proper(g, m.chain) && Owned(files, owner)
    ensures forall j: nat {:trigger Cluster(g, j)} :: m.chain[0] <= j <= m.chain[|m.chain| - 1] ==> Cluster(g, j)
  {
  }

  /** Every cluster from the first to the last is one of the file's. */
  lemma {:induction false} RunMember(g: Geometry, files: map<nat, Meta>, owner: map<nat, nat>, id: nat, m: Meta,
      next: nat, c: nat)
    requires id in files && files[id].chain == m.chain + [next] && m.chain != [] && Contiguous(m.chain)
      && ExfatState.Proper(g, m.chain) && Owned(files, owner) && Sane(g)
    requires m.chain[0] <= c <= m.chain[|m.chain| - 1] && next !in m.chain
    ensures c in owner && owner[c] == id && c != next && c + 1 < 0x1_0000_0000
  {
    var k := c - m.chain[0];
    assert m.chain[|m.chain| - 1] == m.chain[0] + |m.chain| - 1;
    assert m.chain[k] == c;
    assert files[id].chain[k] == c;
  }

  lemma {:induction false} LinkStep(d0: Disk, d: Disk, d': Disk, g: Geometry, first: nat, last: nat, c: nat, next: nat)
    requires DataKept(d0, d, g, {}) && DataKept(d, d', g, {}) && FatKept(d, d', g, {c}) && FatAt(d', g, c) == c + 1
      && FatAt(d, g, next) == EOC && next != c && Cluster(g, next)
    requires first <= c < last && (forall j: nat {:trigger Cluster(g, j)} :: first <= j <= last ==> Cluster(g, j))
    requires forall j: nat {:trigger FatAt(d, g, j)} :: first <= j < c ==> FatAt(d, g, j) == j + 1
    ensures DataKept(d0, d', g, {}) && FatAt(d', g, next) == EOC
    ensures forall j: nat {:trigger FatAt(d', g, j)} :: first <= j < c + 1 ==> FatAt(d', g, j) == j + 1
  {
    var none: set<nat> := {};
    DataKeptTrans(d0, d, d', g, none, none);
    assert none + none == none;
    forall j: nat {:trigger FatAt(d', g, j)} | first <= j < c + 1 ensures FatAt(d', g, j) == j + 1 {
      if j < c {
        assert Cluster(g, j);
        assert FatAt(d, g, j) == j + 1;
      }
    }
  }

  /** The links written one by one make the run a chain. */
  lemma {:induction false} LinkedRun(d0: Disk, d: Disk, d': Disk, g: Geometry, m: Meta, next: nat)
    requires Growing(d0, g, m, Bpc(g)) && !m.linked && Cluster(g, next) && next !in m.chain && DataKept(d0, d, g, {})
      && DataKept(d, d', g, {})
    requires FatAt(d, g, next) == EOC
    requires var first, last := m.chain[0], m.chain[|m.chain| - 1];
      FatKept(d, d', g, {last}) && FatAt(d', g, last) == next && forall j: nat {:trigger FatAt(d, g, j)} ::
        first <= j < last ==> FatAt(d, g, j) == j + 1
    ensures Growing(d', g, Meta(m.chain + [next], true, m.content), 0)
  {
    var last, longer := m.chain[|m.chain| - 1], m.chain + [next];
    forall k {:trigger longer[k]} | 0 <= k < |longer| - 1 ensures FatAt(d', g, longer[k]) == longer[k + 1] {
      if k < |m.chain| - 1 {
        assert m.chain[k] == m.chain[0] + k && m.chain[k + 1] == m.chain[0] + k + 1 && Cluster(g, m.chain[k]);
        assert FatAt(d, g, m.chain[k]) == m.chain[k] + 1;
      }
    }
    assert FatAt(d', g, next) == EOC;
    HoldsFrame(d0, d, g, m.chain, m.content, {});
    HoldsFrame(d, d', g, m.chain, m.content, {});
    OneMore(d', g, m, next, true);
  }

  lemma {:induction false} ClearByteFits(w: Byte)
    ensures ClearBit(w, 1) < 256
  {
  }

  lemma {:induction false} HeadChained(e: seq<Byte>, first: nat)
    requires |e| == 32 && Head(e, first, true) && ClearBit(e[1], 1) < 256
    ensures Head(Patched(e, 1, [ClearBit(e[1], 1)]), first, false)
  {
    var w: Byte := ClearBit(e[1], 1);
    PatchedElse(e, 1, [w], 20, 24);
    ClearBitSpec(e[1], 1, 1);
    assert Patched(e, 1, [w])[1] == w;
  }

  lemma {:induction false} OwnFrame(d: Disk, d': Disk, g: Geometry, reserved: set<nat>, dir: seq<nat>, files: map<nat,
      Meta>, owner: map<nat, nat>, id: nat, off: nat)
    requires Fs(d, g, reserved, dir, files, owner, id) && id in files && Growing(d, g, files[id], off)
      && Effect(d, d', g, reserved, dir, {}, SlotsOf(id))
    ensures Growing(d', g, files[id], off)
  {
    forall k | 0 <= k < |files[id].chain| ensures files[id].chain[k] !in reserved {
      assert files[id].chain[k] in owner;
    }
    GrowingFrame(d, d', g, files[id], off, {}, {} + reserved);
  }

  lemma {:induction false} FreeInRange(g: Geometry, used: set<nat>, c: nat)
    requires Sane(g) && LowestFree(g, used, c)
    ensures Cluster(g, c) && 2 <= c < 0x1_0000_0000 && c !in used
  {
  }

  lemma {:induction false} HeadFirst(e: seq<Byte>, c: nat)
    requires |e| == 32 && c < 0x1_0000_0000
    ensures Head(Patched(Patched(e, 20, LePut(c, 4)), 1, [3]), c, true)
    ensures Patched(Patched(e, 20, LePut(c, 4)), 1, [3])[0] == e[0]
  {
    var e1 := Patched(e, 20, LePut(c, 4));
    FitsFour(c);
    LeRoundTrip(c, 4);
    PatchedIs(e, 20, LePut(c, 4));
    PatchedElse(e1, 1, [3], 20, 24);
    assert Patched(e1, 1, [3])[1] == 3;
    assert Shr(3, 1) == Shr(1, 0) == 1;
  }

  lemma {:induction false} FirstGrowing(d: Disk, g: Geometry, c: nat)
    requires Cluster(g, c)
    ensures Growing(d, g, Meta([c], false, []), 0)
  {
    RowsOne(Bpc(g));
  }

  lemma {:induction false} ClaimEffect(d: Disk, d': Disk, g: Geometry, reserved: set<nat>, dir: seq<nat>,
      files: map<nat, Meta>, owner: map<nat, nat>, id: nat, c: nat)
    requires Fs(d, g, reserved, dir, files, owner, id) && id in files
    requires LowestFree(g, Used(reserved, owner), c) && FatKept(d, d', g, {c}) && DataKept(d, d', g, reserved)
      && SlotsKept(d, d', g, dir, {})
    ensures Effect(d, d', g, reserved, dir, {c}, {})
    ensures Fs(d', g, reserved, dir, files[id := files[id].(chain := files[id].chain + [c])], owner[c := id], id)
  {
    KeptMore(d, d', g, reserved, {c} + reserved);
    assert c !in reserved && c !in owner;
    FsClaim(d, g, reserved, dir, files, owner, id, c);
    var files', owner' := files[id := files[id].(chain := files[id].chain + [c])], owner[c := id];
    HasSlots(d, g, reserved, dir, files', owner', id);
    SlotsSame(d, d', g, dir, id);
    hide Fs, Epc, ExfatState.Proper, Private, FatKept, DataKept, SlotsKept, SameSet, SetTypes;
    TypesKept(d, d', g, reserved, dir, files', owner', id);
    EffectMore(d, d', g, reserved, dir, {c}, {}, {c}, SlotsOf(id));
    FsFrame(d, d', g, reserved, dir, files', owner', id, {c});
  }

  lemma {:induction false} NoFiles(d: Disk, g: Geometry, reserved: set<nat>, dir: seq<nat>)
    requires Directory(d, g, dir, map[], -1)
    ensures Fs(d, g, reserved, dir, map[], map[], -1)
  {
  }

  lemma {:induction false} HasSlots(d: Disk, g: Geometry, reserved: set<nat>, dir: seq<nat>, files: map<nat, Meta>,
      owner: map<nat, nat>, id: nat)
    requires id in files && Fs(d, g, reserved, dir, files, owner, id)
    ensures HasSlot(g, dir, id) && HasSlot(g, dir, id + 1) && HasSlot(g, dir, id + 2)
    ensures forall i :: i in files && i != id ==> id + 3 <= i || i + 3 <= id
    ensures Private(reserved, owner, {}, id) && NotSystem(g, id)
  {
  }

  lemma {:induction false} TwoSlots(d: Disk, d1: Disk, d2: Disk, g: Geometry, reserved: set<nat>, dir: seq<nat>,
      id: nat)
    requires FatKept(d, d1, g, {}) && DataKept(d, d1, g, reserved) && SlotsKept(d, d1, g, dir, {id + 1})
    requires FatKept(d1, d2, g, {}) && DataKept(d1, d2, g, reserved) && SlotsKept(d1, d2, g, dir, {id})
    ensures Effect(d, d2, g, reserved, dir, {}, SlotsOf(id))
  {
    assert {} + reserved == reserved;
    EffectMore(d, d1, g, reserved, dir, {}, {id + 1}, {}, SlotsOf(id));
    EffectMore(d1, d2, g, reserved, dir, {}, {id}, {}, SlotsOf(id));
    EffectTrans(d, d1, d2, g, reserved, dir, {}, SlotsOf(id));
  }
}
