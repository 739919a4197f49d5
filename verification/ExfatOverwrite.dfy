/** `exfat_write` from inside a file. */
module ExfatOverwrite {
  import opened LittleEndian
  import opened Bits
  import opened RowMajor
  import opened ExfatDisk
  import opened ExfatState
  import opened ExfatVolume
  import opened Exfat
  import opened ExfatFile

  // ----- inside the clusters of a file -----

  /** The bytes of cluster k from off on are now those of s. */
  lemma {:induction false} HoldsOver(d: Disk, d': Disk, g: Geometry, m: Meta, k: nat, off: nat, s: seq<Byte>)
    requires MetaSound(d, g, m) && k < |m.chain| && off + |s| <= Bpc(g) && At(off, k, Bpc(g)) + |s| <= |m.content|
    requires OnlyIn(d, d', Base(g, m.chain[k]) + off, |s|) && Slice(d', Base(g, m.chain[k]) + off, |s|) == s
    ensures Holds(d', g, m.chain, Patched(m.content, At(off, k, Bpc(g)), s))
  {
    hide OnlyIn, Slice, Base, At, Bpc, Linked, Sized, Cluster, DataAt;
    var more := Patched(m.content, At(off, k, Bpc(g)), s);
    forall j: nat, i: nat {:trigger DataAt(d', g, m.chain[j], i)} {:trigger more[At(i, j, Bpc(g))]}
      | j < |m.chain| && i < Bpc(g) && At(i, j, Bpc(g)) < |more|
      ensures DataAt(d', g, m.chain[j], i) == more[At(i, j, Bpc(g))]
    {
      assert DataAt(d, g, m.chain[j], i) == m.content[At(i, j, Bpc(g))];
      if j == k {
        SameRow(i, off, k, Bpc(g));
        InCluster(d, d', g, m.chain[k], off, s, i);
      } else {
        OtherRow(g, i, j, off, |s|, k);
        ElsewhereSame(d, d', g, m.chain, off, |s|, k, j, i);
      }
    }
  }

  lemma {:induction false} InCluster(d: Disk, d': Disk, g: Geometry, c: nat, off: nat, s: seq<Byte>, i: nat)
    requires OnlyIn(d, d', Base(g, c) + off, |s|) && Slice(d', Base(g, c) + off, |s|) == s
    ensures DataAt(d', g, c, i) == if off <= i < off + |s| then s[i - off] else DataAt(d, g, c, i)
  {
    hide Base;
    if off <= i < off + |s| {
      assert Slice(d', Base(g, c) + off, |s|)[i - off] == d'[Base(g, c) + off + (i - off)];
    }
  }

  /** Bytes of other clusters are before or after. */
  lemma {:induction false} OtherRow(g: Geometry, i: nat, j: nat, off: nat, n: nat, k: nat)
    requires i < Bpc(g) && off + n <= Bpc(g) && j != k
    ensures At(i, j, Bpc(g)) < At(off, k, Bpc(g)) || At(off, k, Bpc(g)) + n <= At(i, j, Bpc(g))
  {
    if j < k {
      EarlierRow(i, j, off, k, Bpc(g));
    } else if n > 0 {
      EarlierRow(off + n - 1, k, i, j, Bpc(g));
      SameRow(off + n - 1, off, k, Bpc(g));
    } else {
      RowsMonotone(k + 1, j, Bpc(g));
      RowsNext(k, Bpc(g));
    }
  }

  lemma {:induction false} ElsewhereSame(d: Disk, d': Disk, g: Geometry, chain: seq<nat>, off: nat, n: nat, k: nat,
      j: nat, i: nat)
    requires ExfatState.Proper(g, chain) && k < |chain| && j < |chain| && j != k && i < Bpc(g) && off + n <= Bpc(g)
    requires OnlyIn(d, d', Base(g, chain[k]) + off, n)
    ensures DataAt(d', g, chain[j], i) == DataAt(d, g, chain[j], i)
  {
    assert chain[j] != chain[k] && Cluster(g, chain[j]) && Cluster(g, chain[k]);
    if chain[j] < chain[k] {
      ClustersApart(g, chain[j], chain[k]);
    } else {
      ClustersApart(g, chain[k], chain[j]);
    }
  }

  lemma {:induction false} SoundOver(d: Disk, d': Disk, g: Geometry, m: Meta, k: nat, off: nat, s: seq<Byte>)
    requires MetaSound(d, g, m) && k < |m.chain| && off + |s| <= Bpc(g) && At(off, k, Bpc(g)) + |s| <= |m.content|
    requires OnlyIn(d, d', Base(g, m.chain[k]) + off, |s|) && Slice(d', Base(g, m.chain[k]) + off, |s|) == s
      && FatKept(d, d', g, {})
    ensures MetaSound(d', g, m.(content := Patched(m.content, At(off, k, Bpc(g)), s)))
  {
    HoldsOver(d, d', g, m, k, off, s);
    LinkedFrame(d, d', g, m.chain, m.linked, {});
  }

  /** One round of the loop of `exfat_write`, inside the file. A contiguous file must not
      come to the end of the cluster. */
  method Round(fs: FileSystem, h: Handle, s: seq<Byte>, scratch: seq<Byte>, ghost k0: nat)
      returns (n: nat, ghost k: nat)
    requires fs.Inv(h.index) && fs.Reads(h, k0) && MetaSound(fs.vol.disk, fs.vol.g, fs.files[h.index])
    requires s != [] && |scratch| == Bpc(fs.vol.g) && h.position + |s| <= h.size
      && (h.noFatChain ==> h.offset + |s| <= Bpc(fs.vol.g))
    modifies fs`files, fs.vol, h`position, h`current, h`offset
    ensures fs.Inv(h.index) && fs.Reads(h, k) && 0 < n <= |s| && h.position == old(h.position) + n
    ensures fs.files == old(fs.files)[h.index :=
      old(fs.files)[h.index].(content := Patched(old(fs.files)[h.index].content, old(h.position), s[..n]))]
    ensures MetaSound(fs.vol.disk, fs.vol.g, fs.files[h.index])
      && SameSet(old(fs.vol.disk), fs.vol.disk, fs.vol.g, fs.vol.dir, h.index)
    ensures h.noFatChain ==> h.offset == old(h.offset) + n && n == |s|
  {
    hide Fs, Epc, Marked, System, At, Slot, Bpc, MetaSound, Sane, Cluster, OnlyIn, Slice, Base, FatKept;
    ghost var m := fs.files[h.index];
    k := k0;
    if h.offset >= Bpc(fs.vol.g) {
      k := NextOfChain(fs, h, m, k0);
    } else {
      Within(fs.vol.disk, fs.vol.g, m, h.offset, k0);
    }
    var avail := Bpc(fs.vol.g) - h.offset;
    n := if |s| < avail then |s| else avail;
    ghost var d := fs.vol.disk;
    OwnsCluster(d, fs.vol.g, fs.vol.reserved, fs.vol.dir, fs.files, fs.owner, h.index, k);
    fs.PutBytes(h.index, h.current, h.offset, s[..n], scratch);
    SoundOver(d, fs.vol.disk, fs.vol.g, m, k, h.offset, s[..n]);
    ReadFits(fs.vol.g, h.offset, k, n);
    ghost var m' := m.(content := Patched(m.content, h.position, s[..n]));
    FsRelabel(fs.vol.disk, fs.vol.g, fs.vol.reserved, fs.vol.dir, fs.files, fs.owner, h.index, m');
    fs.files := fs.files[h.index := m'];
    h.position := h.position + n;
    h.offset := h.offset + n;
  }

  /** The branch for a chained file that is not at its end. */
  method NextOfChain(fs: FileSystem, h: Handle, ghost m: Meta, ghost k0: nat) returns (ghost k: nat)
    requires Sane(fs.vol.g) && MetaSound(fs.vol.disk, fs.vol.g, m) && m.linked && h.offset == Bpc(fs.vol.g)
    requires At(h.offset, k0, Bpc(fs.vol.g)) < |m.content|
      && (m.chain != [] ==> k0 < |m.chain| && h.current == m.chain[k0])
    modifies h`current, h`offset
    ensures h.offset == 0 < Bpc(fs.vol.g) && At(0, k, Bpc(fs.vol.g)) == At(old(h.offset), k0, Bpc(fs.vol.g))
    ensures k < |m.chain| && h.current == m.chain[k]
  {
    MoreClusters(fs.vol.disk, fs.vol.g, m, h.offset, k0);
    BpcPositive(fs.vol.g);
    hide At, Bpc, MetaSound, Sane;
    h.current := fs.vol.GetFatEntry(h.current);
    h.offset := 0;
    k := k0 + 1;
  }

  lemma {:induction false} Within(d: Disk, g: Geometry, m: Meta, off: nat, k: nat)
    requires Sane(g) && MetaSound(d, g, m) && At(off, k, Bpc(g)) < |m.content| && off < Bpc(g)
    ensures m.chain != []
  {
    MoreClusters(d, g, m, off, k);
  }

  lemma {:induction false} OwnsCluster(d: Disk, g: Geometry, reserved: set<nat>, dir: seq<nat>, files: map<nat, Meta>,
      owner: map<nat, nat>, id: nat, k: nat)
    requires Fs(d, g, reserved, dir, files, owner, id) && id in files && k < |files[id].chain|
    ensures files[id].chain[k] in owner && owner[files[id].chain[k]] == id
  {
  }

  /** `exfat_write` inside a file, when the file is chained or the bytes stay in one cluster:
      they replace those at the position, and nothing else changes. */
  method Overwrite(fs: FileSystem, h: Handle, buf: seq<Byte>, scratch: seq<Byte>, ghost k0: nat) returns (ghost k: nat)
    requires fs.Inv(-1) && fs.Reads(h, k0) && |scratch| == Bpc(fs.vol.g) && h.position + |buf| <= h.size
    requires h.noFatChain ==> h.offset + |buf| <= Bpc(fs.vol.g)
    modifies fs`files, fs.vol, h`position, h`current, h`offset
    ensures fs.Inv(-1) && fs.Reads(h, k) && h.position == old(h.position) + |buf|
    ensures fs.files == old(fs.files)[h.index :=
      old(fs.files)[h.index].(content := Patched(old(fs.files)[h.index].content, old(h.position), buf))]
  {
    hide Fs, Epc, Marked, System, At, Slot, Bpc, MetaSound, Sane, Cluster, SameSet, Patched;
    ghost var d0, m, files0 := fs.vol.disk, fs.files[h.index], fs.files;
    var id := h.index;
    k := k0;
    NothingYet(fs, h, k0, m);
    if |buf| == 0 {
      return;
    }
    Begin(d0, fs.vol.g, fs.vol.reserved, fs.vol.dir, fs.files, fs.owner, id);
    SoundFile(d0, fs.vol.g, fs.vol.reserved, fs.vol.dir, fs.files, fs.owner, id);
    var done := 0;
    while done < |buf|
      invariant done <= |buf| && fs.Inv(id) && fs.Reads(h, k) && id in fs.files && h.position == old(h.position) + done
      invariant fs.files == files0[id := m.(content := Patched(m.content, old(h.position), buf[..done]))]
      invariant MetaSound(fs.vol.disk, fs.vol.g, fs.files[id]) && SameSet(d0, fs.vol.disk, fs.vol.g, fs.vol.dir, id)
      invariant h.noFatChain ==> h.offset == old(h.offset) + done
    {
      var n;
      ghost var d := fs.vol.disk;
      n, k := Round(fs, h, buf[done..], scratch, k);
      PatchedTwice(m.content, old(h.position), buf, done, n);
      HeadTrans(d0, d, fs.vol.disk, fs.vol.g, fs.vol.dir, id);
      done := done + n;
    }
    assert buf[..|buf|] == buf;
    Store(fs, h, m.(content := Patched(m.content, old(h.position), buf)), d0);
  }

  lemma {:induction false} NothingYet(fs: FileSystem, h: Handle, k: nat, m: Meta)
    requires fs.Reads(h, k) && m == fs.files[h.index]
    ensures h.index in fs.files && h.size == |m.content| && h.position <= h.size
      && Patched(m.content, h.position, []) == m.content
    ensures fs.files == fs.files[h.index := m.(content := Patched(m.content, h.position, []))]
    ensures SameSet(fs.vol.disk, fs.vol.disk, fs.vol.g, fs.vol.dir, h.index)
  {
    assert Patched(m.content, h.position, []) == m.content;
  }

  lemma {:induction false} PatchedTwice(c: seq<Byte>, p: nat, buf: seq<Byte>, done: nat, n: nat)
    requires p + |buf| <= |c| && done + n <= |buf|
    ensures |Patched(c, p, buf[..done])| == |c|
      && Patched(Patched(c, p, buf[..done]), p + done, buf[done..][..n]) == Patched(c, p, buf[..done + n])
  {
    hide Patched;
    var a, b := Patched(Patched(c, p, buf[..done]), p + done, buf[done..][..n]), Patched(c, p, buf[..done + n]);
    forall i | 0 <= i < |c| ensures a[i] == b[i] {
      PatchedAt(c, p, buf[..done], i);
      PatchedAt(Patched(c, p, buf[..done]), p + done, buf[done..][..n], i);
      PatchedAt(c, p, buf[..done + n], i);
    }
  }

  lemma {:induction false} PatchedAt(c: seq<Byte>, p: nat, s: seq<Byte>, i: nat)
    requires p + |s| <= |c| && i < |c|
    ensures Patched(c, p, s)[i] == if p <= i < p + |s| then s[i - p] else c[i]
  {
  }

  lemma {:induction false} HeadTrans(d: Disk, d1: Disk, d2: Disk, g: Geometry, dir: seq<nat>, id: nat)
    requires SameSet(d, d1, g, dir, id) && SameSet(d1, d2, g, dir, id)
    ensures SameSet(d, d2, g, dir, id)
  {
  }

  /** The stream entry is written again, with the same length. */
  method Store(fs: FileSystem, h: Handle, ghost m: Meta, ghost d0: Disk)
    requires fs.Inv(h.index) && h.index in fs.files && fs.files[h.index] == m && MetaSound(fs.vol.disk, fs.vol.g, m)
    requires SameSet(d0, fs.vol.disk, fs.vol.g, fs.vol.dir, h.index)
    requires MetaEntry(Slot(d0, fs.vol.g, fs.vol.dir, h.index + 1), m) && h.size == |m.content|
    modifies fs.vol
    ensures fs.Inv(-1)
  {
    hide Fs, Epc, Marked, System, Slot, MetaSound, Sane, Effect, StreamSays, Head, ChecksumRight;
    var id := h.index;
    ghost var d := fs.vol.disk;
    var e := fs.StreamEntry(id);
    ghost var first := if m.chain == [] then 0 else m.chain[0];
    SizeRead(e, first, !m.linked, h.size);
    SizeStored(e, first, !m.linked, h.size);
    fs.PutStream(id, Patched(Patched(e, 8, LePut(h.size, 8)), 24, LePut(h.size, 8)));
    EffectSound(d, fs.vol.disk, fs.vol.g, fs.vol.reserved, fs.vol.dir, fs.files, fs.owner, id);
    StreamType(fs.vol.disk, fs.vol.g, fs.vol.reserved, fs.vol.dir, fs.files, fs.owner, id);
    FsWhole(fs.vol.disk, fs.vol.g, fs.vol.reserved, fs.vol.dir, fs.files, fs.owner, id);
  }

  lemma {:induction false} SizeRead(e: seq<Byte>, first: nat, contiguous: bool, size: nat)
    requires |e| == 32 && StreamSays(e, first, contiguous, size)
    ensures Head(e, first, contiguous) && size < 0x1_0000_0000_0000_0000
  {
    EightBytes(e[24..32]);
  }

  lemma {:induction false} EightBytes(s: seq<Byte>)
    requires |s| == 8
    ensures LeGet(s) < 0x1_0000_0000_0000_0000
  {
    assert LeGet(s[4..]) < 0x1_0000_0000 by { FourBytes(s[4..]); }
    FourBytes(s[..4]);
    assert s[1..][1..][1..][1..] == s[4..];
    assert LeGet(s) == s[0] + 256 * LeGet(s[1..]);
    assert LeGet(s[1..]) == s[1..][0] + 256 * LeGet(s[1..][1..]);
    assert LeGet(s[1..][1..]) == s[1..][1..][0] + 256 * LeGet(s[1..][1..][1..]);
    assert LeGet(s[1..][1..][1..]) == s[1..][1..][1..][0] + 256 * LeGet(s[4..]);
  }

  lemma {:induction false} FourBytes(s: seq<Byte>)
    requires |s| == 4
    ensures LeGet(s) < 0x1_0000_0000
  {
    assert LeGet(s) == s[0] + 256 * LeGet(s[1..]);
    assert LeGet(s[1..]) == s[1..][0] + 256 * LeGet(s[1..][1..]);
    assert LeGet(s[1..][1..]) == s[1..][1..][0] + 256 * LeGet(s[1..][1..][1..]);
    assert LeGet(s[1..][1..][1..]) == s[1..][1..][1..][0] + 256 * LeGet(s[1..][1..][1..][1..]);
  }

  /** A change of the directory slots of a file leaves its bytes. */
  lemma {:induction false} EffectSound(d: Disk, d': Disk, g: Geometry, reserved: set<nat>, dir: seq<nat>,
      files: map<nat, Meta>, owner: map<nat, nat>, id: nat)
    requires Fs(d, g, reserved, dir, files, owner, id) && id in files && MetaSound(d, g, files[id])
      && Effect(d, d', g, reserved, dir, {}, SlotsOf(id))
    ensures MetaSound(d', g, files[id])
  {
    var m := files[id];
    forall k | 0 <= k < |m.chain| ensures m.chain[k] !in reserved {
      assert files[id].chain[k] in owner;
    }
    var none: set<nat> := {};
    assert none + reserved == reserved;
    KeptMore(d, d', g, {}, reserved);
    MetaFrame(d, d', g, m, reserved);
  }

  // ----- across the end of a cluster of a contiguous file -----

  /** The clusters up to k, and then cluster next, are a chain in the FAT. */
  ghost predicate CutAfter(d: Disk, g: Geometry, chain: seq<nat>, k: nat, next: nat)
  {
    k + 1 < |chain| && next !in chain && Chained(d, g, chain[..k + 1] + [next])
  }

  /** `exfat_write` inside a contiguous file over the end of a cluster: unless no cluster is
      left, the file is cut after that cluster. */
  method OverwriteAcross(fs: FileSystem, h: Handle, buf: seq<Byte>, scratch: seq<Byte>, ghost k0: nat)
      returns (ok: bool, ghost k: nat)
    requires fs.Inv(-1) && fs.Reads(h, k0) && |scratch| == Bpc(fs.vol.g) && h.position + |buf| <= h.size
    requires h.noFatChain && h.offset + |buf| > Bpc(fs.vol.g)
    requires fs.files[h.index].chain != [] ==> h.first == fs.files[h.index].chain[0]
    modifies fs, fs.vol, h
    ensures !ok ==> fs.Full()
    ensures ok ==> CutAfter(fs.vol.disk, fs.vol.g, old(fs.files)[h.index].chain, k, h.current)
    ensures ok ==>
      Head(Slot(fs.vol.disk, fs.vol.g, fs.vol.dir, h.index + 1), h.first, false)
      && h.first == old(fs.files)[h.index].chain[0]
  {
    hide Fs, Epc, Marked, System, At, Slot, Bpc, MetaSound, Sane, Cluster, CutAfter, Head, Patched;
    var id := h.index;
    Begin(fs.vol.disk, fs.vol.g, fs.vol.reserved, fs.vol.dir, fs.files, fs.owner, id);
    SoundFile(fs.vol.disk, fs.vol.g, fs.vol.reserved, fs.vol.dir, fs.files, fs.owner, id);
    k := k0;
    if h.offset < Bpc(fs.vol.g) {
      var n;
      n, k := Round(fs, h, buf[..Bpc(fs.vol.g) - h.offset], scratch, k0);
      assert n == Bpc(fs.vol.g) - old(h.offset);
    }
    ok := CrossRun(fs, h, k);
  }

  /** `exfat_write` at the end of cluster k of a contiguous file that goes on after it. The
      code allocates a cluster all the same and links the run up to k to it: the stream entry
      now says that the file is a chain, and the file's later clusters are not on it. */
  method CrossRun(fs: FileSystem, h: Handle, ghost k: nat) returns (ok: bool)
    requires fs.Inv(h.index) && fs.Reads(h, k) && h.noFatChain && h.offset == Bpc(fs.vol.g) && h.position < h.size
    requires MetaSound(fs.vol.disk, fs.vol.g, fs.files[h.index])
      && MetaEntry(Slot(fs.vol.disk, fs.vol.g, fs.vol.dir, h.index + 1), fs.files[h.index])
    requires fs.files[h.index].chain != [] ==> h.first == fs.files[h.index].chain[0]
    modifies fs, fs.vol, h
    ensures !ok ==> fs.files == old(fs.files) && fs.Full()
    ensures ok ==> CutAfter(fs.vol.disk, fs.vol.g, old(fs.files)[h.index].chain, k, h.current)
    ensures ok ==>
      Head(Slot(fs.vol.disk, fs.vol.g, fs.vol.dir, h.index + 1), h.first, false)
      && h.first == old(fs.files)[h.index].chain[0]
  {
    hide Fs, Epc, Marked, System, At, Slot, Bpc, MetaSound, MetaEntry, Sane, Cluster, LowestFree, Effect, CutAfter,
      Head, Owned, Contiguous, ExfatState.Proper, FatAt, DataKept, FatKept;
    var id := h.index;
    ghost var m := fs.files[id];
    RunInside(fs.vol.disk, fs.vol.g, m, h.offset, k);
    RunHead(Slot(fs.vol.disk, fs.vol.g, fs.vol.dir, id + 1), m);
    var next;
    ok, next := fs.Claim(id);
    if !ok {
      return;
    }
    FreeInRange(fs.vol.g, Used(fs.vol.reserved, old(fs.owner)), next);
    NewCluster(old(fs.vol.disk), fs.vol.g, fs.vol.reserved, fs.vol.dir, old(fs.files), old(fs.owner), id, next);
    assert next != h.current + 1;
    LinkUpTo(fs, h, m, k, next);
    h.noFatChain := false;
    h.current := next;
    var e := fs.StreamEntry(id);
    ClearByteFits(e[1]);
    HeadChained(e, h.first);
    ghost var d := fs.vol.disk;
    fs.PutStream(id, Patched(e, 1, [ClearBit(e[1], 1)]));
    CutKept(d, fs.vol.disk, fs.vol.g, fs.vol.reserved, fs.vol.dir, m.chain, k, next, id);
    h.offset := 0;
  }

  /** The loop that links the run. */
  method LinkUpTo(fs: FileSystem, h: Handle, ghost m: Meta, ghost k: nat, next: nat)
    requires fs.Inv(h.index) && h.index in fs.files && fs.files[h.index].chain == m.chain + [next]
      && Cluster(fs.vol.g, next)
    requires k + 1 < |m.chain| && h.first == m.chain[0] && h.current == m.chain[k] && next !in m.chain
      && next < 0x1_0000_0000
    requires Contiguous(m.chain) && ExfatState.Proper(fs.vol.g, m.chain) && FatAt(fs.vol.disk, fs.vol.g, next) == EOC
    modifies fs.vol
    ensures fs.Inv(h.index) && CutAfter(fs.vol.disk, fs.vol.g, m.chain, k, next)
    ensures SameSet(old(fs.vol.disk), fs.vol.disk, fs.vol.g, fs.vol.dir, h.index)
  {
    hide Fs, Epc, Marked, System, Slot, Bpc, Sane, Cluster, CutAfter, Owned, FatAt, DataKept, FatKept, SlotAt;
    var id := h.index;
    ghost var d0 := fs.vol.disk;
    RunOwned(d0, fs.vol.g, fs.vol.reserved, fs.vol.dir, fs.files, fs.owner, id, m.chain);
    SameDataNow(d0, fs.vol.g);
    for c := h.first to h.current
      invariant fs.Inv(id) && DataKept(d0, fs.vol.disk, fs.vol.g, {}) && FatAt(fs.vol.disk, fs.vol.g, next) == EOC
      invariant forall j: nat {:trigger FatAt(fs.vol.disk, fs.vol.g, j)} :: h.first <= j < c ==>
        FatAt(fs.vol.disk, fs.vol.g, j) == j + 1
      invariant SameSet(d0, fs.vol.disk, fs.vol.g, fs.vol.dir, id)
    {
      ghost var d := fs.vol.disk;
      RunMember(fs.vol.g, fs.files, fs.owner, id, m, next, c);
      fs.Link(id, c, c + 1);
      LinkStep(d0, d, fs.vol.disk, fs.vol.g, m.chain[0], m.chain[|m.chain| - 1], c, next);
    }
    ghost var d := fs.vol.disk;
    RunMember(fs.vol.g, fs.files, fs.owner, id, m, next, h.current);
    fs.Link(id, h.current, next);
    CutLinked(d, fs.vol.disk, fs.vol.g, m.chain, k, next);
  }

  lemma {:induction false} RunInside(d: Disk, g: Geometry, m: Meta, off: nat, k: nat)
    requires Sane(g) && MetaSound(d, g, m) && !m.linked && At(off, k, Bpc(g)) < |m.content| && off == Bpc(g)
    ensures k + 1 < |m.chain| && m.chain[k + 1] == m.chain[k] + 1 && Contiguous(m.chain)
      && ExfatState.Proper(g, m.chain)
  {
    MoreClusters(d, g, m, off, k);
  }

  lemma {:induction false} RunHead(e: seq<Byte>, m: Meta)
    requires |e| == 32 && MetaEntry(e, m) && m.chain != [] && !m.linked
    ensures Head(e, m.chain[0], true)
  {
  }

  /** The new cluster is none of the file's. */
  lemma {:induction false} NewCluster(d: Disk, g: Geometry, reserved: set<nat>, dir: seq<nat>, files: map<nat, Meta>,
      owner: map<nat, nat>, id: nat, next: nat)
    requires Fs(d, g, reserved, dir, files, owner, id) && id in files && next !in Used(reserved, owner)
    ensures next !in files[id].chain
  {
  }

  lemma {:induction false} RunOwned(d: Disk, g: Geometry, reserved: set<nat>, dir: seq<nat>, files: map<nat, Meta>,
      owner: map<nat, nat>, id: nat, chain: seq<nat>)
    requires Fs(d, g, reserved, dir, files, owner, id) && Contiguous(chain) && ExfatState.Proper(g, chain)
      && chain != []
    ensures Owned(files, owner) && chain[0] <= chain[|chain| - 1] == chain[0] + |chain| - 1
    ensures forall j: nat {:trigger Cluster(g, j)} :: chain[0] <= j <= chain[|chain| - 1] ==> Cluster(g, j)
  {
  }

  lemma {:induction false} CutLinked(d: Disk, d': Disk, g: Geometry, chain: seq<nat>, k: nat, next: nat)
    requires Contiguous(chain) && ExfatState.Proper(g, chain) && k + 1 < |chain| && next !in chain && Cluster(g, next)
    requires FatKept(d, d', g, {chain[k]}) && FatAt(d', g, chain[k]) == next && FatAt(d, g, next) == EOC
    requires forall j: nat {:trigger FatAt(d, g, j)} :: chain[0] <= j < chain[k] ==> FatAt(d, g, j) == j + 1
    ensures CutAfter(d', g, chain, k, next)
  {
    hide FatAt;
    var cut := chain[..k + 1] + [next];
    forall i {:trigger cut[i]} | 0 <= i < |cut| - 1 ensures FatAt(d', g, cut[i]) == cut[i + 1] {
      assert cut[i] == chain[i] && Cluster(g, chain[i]);
      if i < k {
        assert cut[i + 1] == chain[i + 1] && chain[i] != chain[k];
        assert FatAt(d, g, chain[i]) == chain[i] + 1;
      }
    }
    assert FatAt(d', g, next) == EOC;
  }

  lemma {:induction false} CutKept(d: Disk, d': Disk, g: Geometry, reserved: set<nat>, dir: seq<nat>, chain: seq<nat>,
      k: nat, next: nat, id: nat)
    requires CutAfter(d, g, chain, k, next) && ExfatState.Proper(g, chain) && Cluster(g, next)
      && Effect(d, d', g, reserved, dir, {}, SlotsOf(id))
    ensures CutAfter(d', g, chain, k, next)
  {
    hide FatAt;
    var cut := chain[..k + 1] + [next];
    forall i {:trigger cut[i]} | 0 <= i < |cut| ensures FatAt(d', g, cut[i]) == FatAt(d, g, cut[i]) {
      assert i <= k ==> cut[i] == chain[i];
      assert Cluster(g, cut[i]);
    }
  }
}
