/** The invariant of a volume: the bitmap, the directory and the files on it. */
module ExfatVolume {
  import opened Shifts
  import opened Bits
  import opened LittleEndian
  import opened RowMajor
  import opened ExfatDisk
  import opened ExfatState

  // ----- the bitmap -----

  /** Bit y of the bitmap. */
  predicate BitIx(d: Disk, g: Geometry, y: nat)
  {
    Bit(d[BitmapByte(g, y / 8)], y % 8)
  }

  /** The bit of cluster x. */
  predicate BitAt(d: Disk, g: Geometry, x: nat)
  {
    x >= 2 && BitIx(d, g, x - 2)
  }

  /** The clusters that the bitmap occupies. */
  ghost predicate InBitmap(g: Geometry, c: nat) { g.bitmap <= c < g.bitmap + g.bitmapClusters }

  /** The set bits are those of the clusters in used. */
  ghost predicate Marked(d: Disk, g: Geometry, used: set<nat>)
  {
    forall x: nat {:trigger BitAt(d, g, x)} :: Cluster(g, x) ==> (BitAt(d, g, x) <==> x in used)
  }

  /** Where byte j of the bitmap is: byte i of bitmap cluster k. */
  lemma {:induction false} BitmapByteAt(d: Disk, g: Geometry, k: nat, i: nat)
    requires 2 <= g.bitmap
    ensures d[BitmapByte(g, Rows(k, Bpc(g)) + i)] == DataAt(d, g, g.bitmap + k, i)
  {
    BitmapCluster(g, k, i);
  }

  /** Bits are untouched by changes outside the bitmap's clusters. */
  lemma {:induction false} BitsFrame(d: Disk, d': Disk, g: Geometry, X: set<nat>, used: set<nat>)
    requires Sane(g) && DataKept(d, d', g, X) && Marked(d, g, used) && forall c: nat :: InBitmap(g, c) ==> c !in X
    ensures Marked(d', g, used)
  {
    forall x: nat {:trigger BitAt(d', g, x)} | Cluster(g, x) ensures BitAt(d', g, x) <==> x in used {
      var j := (x - 2) / 8;
      SameBitmapByte(d, d', g, X, j);
      assert BitAt(d, g, x) <==> x in used;
    }
  }

  lemma {:induction false} SameBitmapByte(d: Disk, d': Disk, g: Geometry, X: set<nat>, j: nat)
    requires Sane(g) && DataKept(d, d', g, X) && j < Rows(g.bitmapClusters, Bpc(g)) && forall c: nat ::
      InBitmap(g, c) ==> c !in X
    ensures d'[BitmapByte(g, j)] == d[BitmapByte(g, j)]
  {
    var k, i := RowOf(j, Bpc(g)), ColOf(j, Bpc(g));
    Split(j, Bpc(g), g.bitmapClusters);
    BitmapCluster(g, k, i);
    assert InBitmap(g, g.bitmap + k) && SameData(d, d', g, g.bitmap + k);
    assert DataAt(d', g, g.bitmap + k, i) == DataAt(d, g, g.bitmap + k, i);
  }

  /** Writing one bit of the bitmap. */
  lemma {:induction false} BitChange(d: Disk, d': Disk, g: Geometry, x: nat, used: set<nat>, on: bool)
    requires Sane(g) && Cluster(g, x) && Marked(d, g, used)
    requires var a, b := BitmapByte(g, (x - 2) / 8), (x - 2) % 8;
      OnlyIn(d, d', a, 1) && d'[a] == if on then SetBit(d[a], b) else ClearBit(d[a], b)
    ensures Marked(d', g, if on then used + {x} else used - {x})
  {
    var a, b := BitmapByte(g, (x - 2) / 8), (x - 2) % 8;
    var used' := if on then used + {x} else used - {x};
    forall y: nat {:trigger BitAt(d', g, y)} | Cluster(g, y) ensures BitAt(d', g, y) <==> y in used' {
      assert BitAt(d, g, y) <==> y in used;
      if (y - 2) / 8 == (x - 2) / 8 {
        SetBitSpec(d[a], b, (y - 2) % 8);
        ClearBitSpec(d[a], b, (y - 2) % 8);
        EightParts(x - 2, y - 2);
      } else {
        assert BitmapByte(g, (y - 2) / 8) != a;
      }
    }
  }

  lemma {:induction false} EightParts(x: nat, y: nat)
    requires x / 8 == y / 8
    ensures x % 8 == y % 8 <==> x == y
  {
  }

  // ----- the system's own clusters -----

  /** The bitmap is chained in order, the directory is a chain, and both are reserved. */
  ghost predicate System(d: Disk, g: Geometry, reserved: set<nat>, dir: seq<nat>)
  {
    && Proper(g, dir) && dir != [] && Chained(d, g, dir)
    && (forall k :: 0 <= k < |dir| ==> dir[k] in reserved && !InBitmap(g, dir[k]))
    && (forall c: nat {:trigger InBitmap(g, c)} :: InBitmap(g, c) ==> c in reserved)
    && (forall c: nat {:trigger FatAt(d, g, c)} :: InBitmap(g, c) ==>
         FatAt(d, g, c) == if InBitmap(g, c + 1) then c + 1 else EOC)
    && (forall c :: c in reserved ==> Cluster(g, c))
  }

  lemma {:induction false} SystemFrame(d: Disk, d': Disk, g: Geometry, reserved: set<nat>, dir: seq<nat>, X: set<nat>)
    requires System(d, g, reserved, dir) && FatKept(d, d', g, X) && X !! reserved
    ensures System(d', g, reserved, dir)
  {
    LinkedFrame(d, d', g, dir, true, X);
    forall c: nat {:trigger FatAt(d', g, c)} | InBitmap(g, c)
      ensures FatAt(d', g, c) == if InBitmap(g, c + 1) then c + 1 else EOC {
      assert FatAt(d, g, c) == if InBitmap(g, c + 1) then c + 1 else EOC;
    }
  }

  // ----- directory entries -----

  function Epc(g: Geometry): nat { Bpc(g) / 32 }

  /** Entry idx of the directory is in range. */
  predicate HasSlot(g: Geometry, dir: seq<nat>, idx: nat) { idx < Rows(|dir|, Epc(g)) }

  /** The address of entry idx. */
  ghost function SlotAt(g: Geometry, dir: seq<nat>, idx: nat): int
  {
    if Epc(g) > 0 && RowOf(idx, Epc(g)) < |dir| then Base(g, dir[RowOf(idx, Epc(g))]) + 32 * ColOf(idx, Epc(g)) else 0
  }

  ghost function Slot(d: Disk, g: Geometry, dir: seq<nat>, idx: nat): (s: seq<Byte>)
    ensures |s| == 32
  {
    Slice(d, SlotAt(g, dir, idx), 32)
  }

  /** A slot lies inside its cluster. */
  lemma {:induction false} SlotInside(g: Geometry, dir: seq<nat>, idx: nat)
    requires Sane(g) && Proper(g, dir) && Epc(g) > 0 && HasSlot(g, dir, idx)
    ensures RowOf(idx, Epc(g)) < |dir| && 32 * ColOf(idx, Epc(g)) + 32 <= Bpc(g)
    ensures SlotAt(g, dir, idx) == Base(g, dir[RowOf(idx, Epc(g))]) + 32 * ColOf(idx, Epc(g))
  {
    Split(idx, Epc(g), |dir|);
  }

  /** Different slots do not overlap. */
  lemma {:induction false} SlotsApart(g: Geometry, dir: seq<nat>, i: nat, j: nat)
    requires Sane(g) && Proper(g, dir) && Epc(g) > 0 && HasSlot(g, dir, i) && HasSlot(g, dir, j) && i != j
    ensures SlotAt(g, dir, i) + 32 <= SlotAt(g, dir, j) || SlotAt(g, dir, j) + 32 <= SlotAt(g, dir, i)
  {
    SlotInside(g, dir, i);
    SlotInside(g, dir, j);
    var a, b := RowOf(i, Epc(g)), RowOf(j, Epc(g));
    Split(i, Epc(g), |dir|);
    Split(j, Epc(g), |dir|);
    hide Base, RowOf, ColOf;
    if a != b {
      assert dir[a] != dir[b] by {
        if a < b {
          assert dir[a] != dir[b];
        } else {
          assert dir[b] != dir[a];
        }
      }
      if dir[a] < dir[b] {
        ClustersApart(g, dir[a], dir[b]);
      } else {
        ClustersApart(g, dir[b], dir[a]);
      }
    }
  }

  /** Slots other than those in Y read as before. */
  ghost predicate SlotsKept(d: Disk, d': Disk, g: Geometry, dir: seq<nat>, Y: set<nat>)
  {
    forall j: nat {:trigger Slot(d', g, dir, j)} :: HasSlot(g, dir, j) && j !in Y ==>
      Slot(d', g, dir, j) == Slot(d, g, dir, j)
  }

  lemma {:induction false} SlotsFrame(d: Disk, d': Disk, g: Geometry, dir: seq<nat>, X: set<nat>)
    requires Sane(g) && Proper(g, dir) && Epc(g) > 0 && DataKept(d, d', g, X) && forall k :: 0 <= k < |dir| ==>
      dir[k] !in X
    ensures SlotsKept(d, d', g, dir, {})
  {
    forall j: nat {:trigger Slot(d', g, dir, j)} | HasSlot(g, dir, j) && j !in {}
      ensures Slot(d', g, dir, j) == Slot(d, g, dir, j) {
      SlotInside(g, dir, j);
      var c, off := dir[RowOf(j, Epc(g))], 32 * ColOf(j, Epc(g));
      assert SameData(d, d', g, c);
      forall k: nat | k < 32 ensures Slot(d', g, dir, j)[k] == Slot(d, g, dir, j)[k] {
        assert DataAt(d', g, c, off + k) == DataAt(d, g, c, off + k);
      }
    }
  }

  /** Writing one slot. */
  lemma {:induction false} SlotChange(d: Disk, d': Disk, g: Geometry, reserved: set<nat>, dir: seq<nat>, idx: nat,
      used: set<nat>)
    requires Sane(g) && System(d, g, reserved, dir) && Epc(g) > 0 && HasSlot(g, dir, idx)
      && OnlyIn(d, d', SlotAt(g, dir, idx), 32) && Marked(d, g, used)
    ensures FatKept(d, d', g, {}) && DataKept(d, d', g, reserved) && SlotsKept(d, d', g, dir, {idx})
      && Marked(d', g, used) && System(d', g, reserved, dir)
  {
    SlotInside(g, dir, idx);
    var c := dir[RowOf(idx, Epc(g))];
    DataChange(d, d', g, c, 32 * ColOf(idx, Epc(g)), 32);
    KeptMore(d, d', g, {c}, reserved);
    SystemFrame(d, d', g, reserved, dir, {});
    BitsFrame(d, d', g, {c}, used);
    forall j: nat {:trigger Slot(d', g, dir, j)} | HasSlot(g, dir, j) && j !in {idx}
      ensures Slot(d', g, dir, j) == Slot(d, g, dir, j) {
      SlotsApart(g, dir, idx, j);
      SliceApart(d, d', SlotAt(g, dir, idx), 32, SlotAt(g, dir, j), 32);
    }
  }

  /** The stream entry e says where the file starts, whether it is contiguous, how long it is
      and how much of it is valid, which is all. */
  predicate StreamSays(e: seq<Byte>, first: nat, contiguous: bool, size: nat)
    requires |e| == 32
  {
    LeGet(e[20..24]) == first && Bit(e[1], 1) == contiguous && LeGet(e[24..32]) == size && LeGet(e[8..16]) == size
  }

  ghost predicate MetaEntry(e: seq<Byte>, m: Meta)
    requires |e| == 32
  {
    StreamSays(e, if m.chain == [] then 0 else m.chain[0], !m.linked, |m.content|) && (m.chain == [] ==> m.linked)
  }

  // ----- checksums -----

  /** `(sum << 15) | (sum >> 1)` in 16 bits. */
  function Rotated(sum: nat): (r: nat)
  {
    sum % 2 * 0x8000 + sum / 2
  }

  /** The bits of a 16-bit word move down by one, and the lowest comes to the top. */
  lemma {:induction false} RotatedBits(sum: nat, i: nat)
    requires sum < 0x1_0000
    ensures Rotated(sum) < 0x1_0000
    ensures Bit(Rotated(sum), i) <==> if i == 15 then Bit(sum, 0) else i < 15 && Bit(sum, i + 1)
  {
    var h := sum / 2;
    Pow2Values();
    if sum % 2 == 1 {
      SetBitIsPlus(h, 15);
      SetBitSpec(h, 15, i);
    }
    if i >= 15 && Bit(h, i) {
      BitFits(h, i);
      Pow2Monotone(15, i);
    }
  }

  /** Setting a bit above all others adds its value. */
  lemma {:induction false} SetBitIsPlus(w: nat, i: nat)
    requires w < Pow2(i)
    ensures SetBit(w, i) == w + Pow2(i)
  {
    if i > 0 {
      SetBitIsPlus(w / 2, i - 1);
    }
  }

  /** One step of the checksum: rotate right by one bit and add, in 16 bits. */
  function Mix(sum: nat, b: Byte): (r: nat)
    ensures r < 0x1_0000
  {
    (Rotated(sum) + b) % 0x1_0000
  }

  /** The SetChecksum of section 6.3.3 of the exFAT specification over the first n bytes of
      an entry set: all bytes but the two that hold the checksum. */
  function SetChecksum(s: seq<Byte>, n: nat): (r: nat)
    requires n <= |s|
    ensures r < 0x1_0000
  {
    if n == 0 then 0
    else if n - 1 == 2 || n - 1 == 3 then SetChecksum(s, n - 1)
    else Mix(SetChecksum(s, n - 1), s[n - 1])
  }

  /** The bytes of n directory entries from idx on. */
  ghost function EntrySet(d: Disk, g: Geometry, dir: seq<nat>, idx: nat, n: nat): (s: seq<Byte>)
    ensures |s| == 32 * n
  {
    if n == 0 then [] else EntrySet(d, g, dir, idx, n - 1) + Slot(d, g, dir, idx + n - 1)
  }

  /** A file entry and the entries that its count says belong to it. */
  function EntryCount(e: seq<Byte>): nat
    requires |e| == 32
  {
    var n: nat := e[1];
    1 + n
  }

  /** The checksum in the file entry at idx is that of its set, if the whole set is in the
      directory. */
  ghost predicate ChecksumRight(d: Disk, g: Geometry, dir: seq<nat>, idx: nat)
  {
    var e := Slot(d, g, dir, idx);
    HasSlot(g, dir, idx + EntryCount(e) - 1) ==>
      LeGet(e[2..4]) == SetChecksum(EntrySet(d, g, dir, idx, EntryCount(e)), 32 * EntryCount(e))
  }

  /** The checksum of a set of three entries depends on those entries only. */
  lemma {:induction false} ChecksumSame(d: Disk, d': Disk, g: Geometry, dir: seq<nat>, idx: nat)
    requires Slot(d, g, dir, idx)[1] == 2 && ChecksumRight(d, g, dir, idx)
    requires forall i: nat {:trigger Slot(d', g, dir, i)} :: idx <= i <= idx + 2 ==>
      Slot(d', g, dir, i) == Slot(d, g, dir, i)
    ensures ChecksumRight(d', g, dir, idx)
  {
    hide SetChecksum, Slot, HasSlot;
    SetSame(d, d', g, dir, idx, 3);
    assert EntryCount(Slot(d, g, dir, idx)) == 3;
  }

  lemma {:induction false} SetSame(d: Disk, d': Disk, g: Geometry, dir: seq<nat>, idx: nat, n: nat)
    requires forall i: nat {:trigger Slot(d', g, dir, i)} :: idx <= i < idx + n ==>
      Slot(d', g, dir, i) == Slot(d, g, dir, i)
    ensures EntrySet(d', g, dir, idx, n) == EntrySet(d, g, dir, idx, n)
  {
    if n > 0 {
      SetSame(d, d', g, dir, idx, n - 1);
    }
  }

  // ----- files and their owners -----

  /** The owner map is the inverse of the chains, so chains are disjoint. */
  ghost predicate Owned(files: map<nat, Meta>, owner: map<nat, nat>)
  {
    && (forall id, k {:trigger files[id].chain[k]} :: id in files && 0 <= k < |files[id].chain| ==>
         files[id].chain[k] in owner && owner[files[id].chain[k]] == id)
    && (forall x {:trigger x in owner} :: x in owner ==> owner[x] in files && x in files[owner[x]].chain)
  }

  ghost predicate OwnerRange(g: Geometry, reserved: set<nat>, owner: map<nat, nat>)
  {
    forall x {:trigger x in owner} :: x in owner ==> Cluster(g, x) && x !in reserved
  }

  /** Every file has a file entry, a stream entry and a name entry of its own. */
  ghost predicate Spaced(g: Geometry, dir: seq<nat>, files: map<nat, Meta>)
  {
    && (forall id {:trigger id in files} :: id in files ==> HasSlot(g, dir, id + 2) && NotSystem(g, id))
    && (forall i, j {:trigger i in files, j in files} :: i in files && j in files && i < j ==> i + 3 <= j)
  }

  /** The three slots from id on are not those of the volume's own entries. */
  predicate NotSystem(g: Geometry, id: nat) { id !in g.system && id + 1 !in g.system && id + 2 !in g.system }

  /** The entry is in use. */
  predicate InUse(e: seq<Byte>)
    requires |e| == 32
  {
    Bit(e[0], 7)
  }

  /** Three entries from id on: a file entry with two more, a stream entry and a name entry. */
  ghost predicate SetTypes(d: Disk, g: Geometry, dir: seq<nat>, id: nat)
  {
    && Slot(d, g, dir, id)[0] == 0x85 && Slot(d, g, dir, id)[1] == 2
    && Slot(d, g, dir, id + 1)[0] == 0xC0 && Slot(d, g, dir, id + 2)[0] == 0xC1
  }

  ghost predicate Typed(d: Disk, g: Geometry, dir: seq<nat>, files: map<nat, Meta>)
  {
    forall id {:trigger SetTypes(d, g, dir, id)} :: id in files ==> SetTypes(d, g, dir, id)
  }

  /** Slot i is one of the three of a file. */
  ghost predicate InSet(files: map<nat, Meta>, i: nat)
  {
    i in files || (1 <= i && i - 1 in files) || (2 <= i && i - 2 in files)
  }

  /** Slot i is in use exactly if it is the volume's or a file's. */
  ghost predicate SlotRight(d: Disk, g: Geometry, dir: seq<nat>, files: map<nat, Meta>, i: nat)
  {
    InUse(Slot(d, g, dir, i)) <==> i in g.system || InSet(files, i)
  }

  /** Outside the slots of ex, the entries in use are those of the volume and of the files. */
  ghost predicate Directory(d: Disk, g: Geometry, dir: seq<nat>, files: map<nat, Meta>, ex: int)
  {
    forall i: nat {:trigger SlotRight(d, g, dir, files, i)} ::
      HasSlot(g, dir, i) && !(0 <= ex <= i <= ex + 2) ==> SlotRight(d, g, dir, files, i)
  }

  lemma {:induction false} TypesInUse()
    ensures Bit(0x85, 7) && Bit(0xC0, 7) && Bit(0xC1, 7) && !Bit(0, 7)
  {
    assert Shr(0x85, 7) == Shr(0x42, 6) == Shr(0x21, 5) == Shr(0x10, 4) == Shr(8, 3) == Shr(4, 2) == Shr(2, 1) ==
      Shr(1, 0);
    assert Shr(0xC0, 7) == Shr(0x60, 6) == Shr(0x30, 5) == Shr(0x18, 4) == Shr(12, 3) == Shr(6, 2) == Shr(3, 1) ==
      Shr(1, 0);
    assert Shr(0xC1, 7) == Shr(0x60, 6);
    assert Shr(0, 7) == Shr(0, 6) == Shr(0, 5) == Shr(0, 4) == Shr(0, 3) == Shr(0, 2) == Shr(0, 1) == Shr(0, 0);
  }

  /** The file entries of the directory are exactly the files. */
  lemma {:induction false} EntriesAreFiles(d: Disk, g: Geometry, dir: seq<nat>, files: map<nat, Meta>, i: nat)
    requires Typed(d, g, dir, files) && Directory(d, g, dir, files, -1) && HasSlot(g, dir, i) && i !in g.system
    ensures Slot(d, g, dir, i)[0] == 0x85 <==> i in files
    ensures InUse(Slot(d, g, dir, i)) <==> InSet(files, i)
  {
    TypesInUse();
    hide Slot, HasSlot;
    assert SlotRight(d, g, dir, files, i);
    if i in files {
      assert SetTypes(d, g, dir, i);
    }
    if 1 <= i && i - 1 in files {
      assert SetTypes(d, g, dir, i - 1);
    }
    if 2 <= i && i - 2 in files {
      assert SetTypes(d, g, dir, i - 2);
    }
  }

  /** File id is as its bytes on disk say. */
  ghost predicate FileSound(d: Disk, g: Geometry, dir: seq<nat>, id: nat, m: Meta)
  {
    && MetaSound(d, g, m) && MetaEntry(Slot(d, g, dir, id + 1), m)
    && Slot(d, g, dir, id)[1] == 2 && ChecksumRight(d, g, dir, id)
  }

  /** All files but file ex are sound. */
  ghost predicate OthersSound(d: Disk, g: Geometry, dir: seq<nat>, files: map<nat, Meta>, ex: int)
  {
    forall id {:trigger files[id]} :: id in files && id != ex ==> FileSound(d, g, dir, id, files[id])
  }

  ghost predicate Fs(d: Disk, g: Geometry, reserved: set<nat>, dir: seq<nat>, files: map<nat, Meta>, owner: map<nat,
      nat>, ex: int)
  {
    && Owned(files, owner) && OwnerRange(g, reserved, owner) && Spaced(g, dir, files)
    && OthersSound(d, g, dir, files, ex) && Typed(d, g, dir, files) && Directory(d, g, dir, files, ex)
  }

  /** A change to FAT entries and data of clusters in X, to data of reserved clusters, and
      to directory slots in Y. */
  ghost predicate Effect(d: Disk, d': Disk, g: Geometry, reserved: set<nat>, dir: seq<nat>, X: set<nat>, Y: set<nat>)
  {
    FatKept(d, d', g, X) && DataKept(d, d', g, X + reserved) && SlotsKept(d, d', g, dir, Y)
  }

  lemma {:induction false} EffectNone(d: Disk, g: Geometry, reserved: set<nat>, dir: seq<nat>, X: set<nat>, Y: set<nat>)
    ensures Effect(d, d, g, reserved, dir, X, Y)
  {
  }

  lemma {:induction false} EffectTrans(d: Disk, d1: Disk, d2: Disk, g: Geometry, reserved: set<nat>, dir: seq<nat>,
      X: set<nat>, Y: set<nat>)
    requires Effect(d, d1, g, reserved, dir, X, Y) && Effect(d1, d2, g, reserved, dir, X, Y)
    ensures Effect(d, d2, g, reserved, dir, X, Y)
  {
    assert X + X == X && X + reserved + (X + reserved) == X + reserved;
    FatKeptTrans(d, d1, d2, g, X, X);
    DataKeptTrans(d, d1, d2, g, X + reserved, X + reserved);
    forall j: nat {:trigger Slot(d2, g, dir, j)} | HasSlot(g, dir, j) && j !in Y
      ensures Slot(d2, g, dir, j) == Slot(d, g, dir, j) {
      assert Slot(d1, g, dir, j) == Slot(d, g, dir, j);
    }
  }

  lemma {:induction false} EffectMore(d: Disk, d': Disk, g: Geometry, reserved: set<nat>, dir: seq<nat>, X: set<nat>,
      Y: set<nat>, X': set<nat>, Y': set<nat>)
    requires Effect(d, d', g, reserved, dir, X, Y) && X <= X' && Y <= Y'
    ensures Effect(d, d', g, reserved, dir, X', Y')
  {
    KeptMore(d, d', g, X, X');
    KeptMore(d, d', g, X + reserved, X' + reserved);
  }

  /** The directory slots of file id. */
  ghost function SlotsOf(id: nat): set<nat> { {id, id + 1, id + 2} }

  /** The clusters of X are file id's or nobody's. */
  ghost predicate Private(reserved: set<nat>, owner: map<nat, nat>, X: set<nat>, id: nat)
  {
    X !! reserved && forall x {:trigger x in X} :: x in X && x in owner ==> owner[x] == id
  }

  /** A change that keeps to file id leaves the other files alone. */
  lemma {:induction false} FsFrame(d: Disk, d': Disk, g: Geometry, reserved: set<nat>, dir: seq<nat>, files: map<nat,
      Meta>, owner: map<nat, nat>, id: nat, X: set<nat>)
    requires Fs(d, g, reserved, dir, files, owner, id) && forall i :: i in files && i != id ==>
      id + 3 <= i || i + 3 <= id
    requires Effect(d, d', g, reserved, dir, X, SlotsOf(id)) && Private(reserved, owner, X, id)
    requires id in files ==> SetTypes(d', g, dir, id)
    ensures Fs(d', g, reserved, dir, files, owner, id)
  {
    DirectoryFrame(d, d', g, reserved, dir, files, id, X);
    hide FileSound, Effect, Proper, Epc, Directory, Typed;
    forall j {:trigger files[j]} | j in files && j != id ensures FileSound(d', g, dir, j, files[j]) {
      assert FileSound(d, g, dir, j, files[j]);
      forall k | 0 <= k < |files[j].chain| ensures files[j].chain[k] !in X + reserved {
        assert files[j].chain[k] in owner;
      }
      FileFrame(d, d', g, reserved, dir, id, X, j, files[j]);
    }
  }

  lemma {:induction false} DirectoryFrame(d: Disk, d': Disk, g: Geometry, reserved: set<nat>, dir: seq<nat>,
      files: map<nat, Meta>, id: nat, X: set<nat>)
    requires Typed(d, g, dir, files) && Directory(d, g, dir, files, id) && Spaced(g, dir, files)
    requires forall i :: i in files && i != id ==> id + 3 <= i || i + 3 <= id
    requires Effect(d, d', g, reserved, dir, X, SlotsOf(id)) && (id in files ==> SetTypes(d', g, dir, id))
    ensures Typed(d', g, dir, files) && Directory(d', g, dir, files, id)
  {
    hide FatKept, DataKept, Slot, Epc;
    forall i: nat {:trigger SlotRight(d', g, dir, files, i)} | HasSlot(g, dir, i) && !(id <= i <= id + 2)
      ensures SlotRight(d', g, dir, files, i) {
      assert Slot(d', g, dir, i) == Slot(d, g, dir, i) && SlotRight(d, g, dir, files, i);
    }
    forall j {:trigger SetTypes(d', g, dir, j)} | j in files && j != id ensures SetTypes(d', g, dir, j) {
      assert SetTypes(d, g, dir, j) && HasSlot(g, dir, j + 2);
    }
  }

  /** Only the set of files matters. */
  lemma {:induction false} DirectoryKeys(d: Disk, g: Geometry, dir: seq<nat>, files: map<nat, Meta>,
      files': map<nat, Meta>, ex: int)
    requires Typed(d, g, dir, files) && Directory(d, g, dir, files, ex) && files'.Keys == files.Keys
    ensures Typed(d, g, dir, files') && Directory(d, g, dir, files', ex)
  {
    hide Slot, HasSlot, SetTypes;
    forall i: nat {:trigger SlotRight(d, g, dir, files', i)} | HasSlot(g, dir, i) && !(0 <= ex <= i <= ex + 2)
      ensures SlotRight(d, g, dir, files', i) {
      assert SlotRight(d, g, dir, files, i);
      SameKeys(files, files', i);
    }
    forall j {:trigger SetTypes(d, g, dir, j)} | j in files' ensures SetTypes(d, g, dir, j) {
      assert j in files;
    }
  }

  lemma {:induction false} SameKeys(files: map<nat, Meta>, files': map<nat, Meta>, i: nat)
    requires files'.Keys == files.Keys
    ensures InSet(files', i) <==> InSet(files, i)
  {
    assert forall j :: j in files' <==> j in files;
  }

  lemma {:induction false} FileFrame(d: Disk, d': Disk, g: Geometry, reserved: set<nat>, dir: seq<nat>, id: nat,
      X: set<nat>, j: nat, m: Meta)
    requires HasSlot(g, dir, j + 2) && (id + 3 <= j || j + 3 <= id) && FileSound(d, g, dir, j, m)
    requires Effect(d, d', g, reserved, dir, X, SlotsOf(id)) && forall k :: 0 <= k < |m.chain| ==>
      m.chain[k] !in X + reserved
    ensures FileSound(d', g, dir, j, m)
  {
    KeptMore(d, d', g, X, X + reserved);
    hide MetaSound, MetaEntry, Proper, Epc, SlotAt, Slot, ChecksumRight;
    MetaFrame(d, d', g, m, X + reserved);
    assert Slot(d', g, dir, j) == Slot(d, g, dir, j) && Slot(d', g, dir, j + 1) == Slot(d, g, dir, j + 1)
      && Slot(d', g, dir, j + 2) == Slot(d, g, dir, j + 2);
    ChecksumSame(d, d', g, dir, j);
  }

  /** A record of file id for another leaves the other files as they are. */
  lemma {:induction false} OthersRelabel(d: Disk, g: Geometry, dir: seq<nat>, files: map<nat, Meta>, id: nat, m: Meta)
    requires Spaced(g, dir, files) && OthersSound(d, g, dir, files, id) && id in files
    ensures Spaced(g, dir, files[id := m]) && OthersSound(d, g, dir, files[id := m], id)
  {
    var files' := files[id := m];
    hide FileSound;
    forall j {:trigger files'[j]} | j in files' && j != id ensures FileSound(d, g, dir, j, files'[j]) {
      assert files'[j] == files[j];
    }
  }

  lemma {:induction false} OwnedClaim(files: map<nat, Meta>, owner: map<nat, nat>, id: nat, c: nat)
    requires Owned(files, owner) && id in files && c !in owner
    ensures Owned(files[id := files[id].(chain := files[id].chain + [c])], owner[c := id])
  {
    var m := files[id].(chain := files[id].chain + [c]);
    var files', owner' := files[id := m], owner[c := id];
    forall j, k {:trigger files'[j].chain[k]} | j in files' && 0 <= k < |files'[j].chain|
      ensures files'[j].chain[k] in owner' && owner'[files'[j].chain[k]] == j {
      if j != id || k < |files[id].chain| {
        assert files[j].chain[k] in owner && owner[files[j].chain[k]] == j;
      }
    }
    forall x {:trigger x in owner'} | x in owner' ensures owner'[x] in files' && x in files'[owner'[x]].chain {
      if x != c {
        assert x in owner;
      }
    }
  }

  /** A new cluster for file id. */
  lemma {:induction false} FsClaim(d: Disk, g: Geometry, reserved: set<nat>, dir: seq<nat>, files: map<nat, Meta>,
      owner: map<nat, nat>, id: nat, c: nat)
    requires Fs(d, g, reserved, dir, files, owner, id) && id in files && Cluster(g, c) && c !in reserved && c !in owner
    ensures Fs(d, g, reserved, dir, files[id := files[id].(chain := files[id].chain + [c])], owner[c := id], id)
    ensures Private(reserved, owner[c := id], {c}, id)
  {
    OwnedClaim(files, owner, id, c);
    OthersRelabel(d, g, dir, files, id, files[id].(chain := files[id].chain + [c]));
    DirectoryKeys(d, g, dir, files, files[id := files[id].(chain := files[id].chain + [c])], id);
    hide Typed, Directory, Owned, OthersSound, Spaced, Epc, Proper;
  }

  lemma {:induction false} OwnedRelabel(files: map<nat, Meta>, owner: map<nat, nat>, id: nat, m: Meta)
    requires Owned(files, owner) && id in files && m.chain == files[id].chain
    ensures Owned(files[id := m], owner)
  {
    var files' := files[id := m];
    forall j, k {:trigger files'[j].chain[k]} | j in files' && 0 <= k < |files'[j].chain|
      ensures files'[j].chain[k] in owner && owner[files'[j].chain[k]] == j {
      assert files[j].chain[k] in owner && owner[files[j].chain[k]] == j;
    }
  }

  /** Changes to the record of file id that leave its clusters. */
  lemma {:induction false} FsRelabel(d: Disk, g: Geometry, reserved: set<nat>, dir: seq<nat>, files: map<nat, Meta>,
      owner: map<nat, nat>, id: nat, m: Meta)
    requires Fs(d, g, reserved, dir, files, owner, id) && id in files && m.chain == files[id].chain
    ensures Fs(d, g, reserved, dir, files[id := m], owner, id)
  {
    OwnedRelabel(files, owner, id, m);
    OthersRelabel(d, g, dir, files, id, m);
    DirectoryKeys(d, g, dir, files, files[id := m], id);
    hide Typed, Directory, Owned, OthersSound, Spaced, Epc, Proper;
  }

  /** When file id is sound too, all are. */
  lemma {:induction false} FsWhole(d: Disk, g: Geometry, reserved: set<nat>, dir: seq<nat>, files: map<nat, Meta>,
      owner: map<nat, nat>, id: nat)
    requires id in files
    ensures Fs(d, g, reserved, dir, files, owner, -1) <==>
      Fs(d, g, reserved, dir, files, owner, id) && HasSlot(g, dir, id + 2) && FileSound(d, g, dir, id, files[id])
  {
    if Typed(d, g, dir, files) {
      DirectoryWhole(d, g, dir, files, id);
    }
    hide Typed, Directory, Owned, OwnerRange;
  }

  lemma {:induction false} DirectoryWhole(d: Disk, g: Geometry, dir: seq<nat>, files: map<nat, Meta>, id: nat)
    requires Typed(d, g, dir, files) && id in files
    ensures Directory(d, g, dir, files, -1) <==> Directory(d, g, dir, files, id)
  {
    TypesInUse();
    hide Slot, HasSlot, Bit;
    assert SetTypes(d, g, dir, id);
    assert SlotRight(d, g, dir, files, id) && SlotRight(d, g, dir, files, id + 1)
      && SlotRight(d, g, dir, files, id + 2);
  }

  /** The clusters of a chain. */
  ghost function Elements(chain: seq<nat>): set<nat> { set k | 0 <= k < |chain| :: chain[k] }

  lemma {:induction false} OwnPrivate(reserved: set<nat>, g: Geometry, files: map<nat, Meta>, owner: map<nat, nat>,
      id: nat)
    requires Owned(files, owner) && OwnerRange(g, reserved, owner) && id in files
    ensures Private(reserved, owner, Elements(files[id].chain), id)
  {
  }

  // ----- creating and dropping files -----

  /** No file has slots among the three from id on. */
  ghost predicate Clear(files: map<nat, Meta>, id: nat)
  {
    forall i {:trigger i in files} :: i in files ==> id + 3 <= i || i + 3 <= id
  }

  const NEW: Meta := Meta([], true, [])

  lemma {:induction false} FsNew(d: Disk, g: Geometry, reserved: set<nat>, dir: seq<nat>, files: map<nat, Meta>,
      owner: map<nat, nat>, id: nat)
    requires Fs(d, g, reserved, dir, files, owner, id) && Clear(files, id) && HasSlot(g, dir, id + 2)
    requires MetaEntry(Slot(d, g, dir, id + 1), NEW) && SetTypes(d, g, dir, id) && ChecksumRight(d, g, dir, id)
    requires NotSystem(g, id)
    ensures Fs(d, g, reserved, dir, files[id := NEW], owner, -1)
  {
    var files' := files[id := NEW];
    assert id !in files;
    OwnedNew(files, owner, id);
    DirectoryNew(d, g, dir, files, id);
    NewSound(d, g, dir, id);
    OthersNew(d, g, dir, files, id);
    hide Typed, Directory, Owned, OwnerRange, Spaced, OthersSound;
  }

  lemma {:induction false} NewSound(d: Disk, g: Geometry, dir: seq<nat>, id: nat)
    requires MetaEntry(Slot(d, g, dir, id + 1), NEW) && SetTypes(d, g, dir, id) && ChecksumRight(d, g, dir, id)
    ensures FileSound(d, g, dir, id, NEW)
  {
    hide ChecksumRight, Slot;
  }

  lemma {:induction false} OthersNew(d: Disk, g: Geometry, dir: seq<nat>, files: map<nat, Meta>, id: nat)
    requires Spaced(g, dir, files) && OthersSound(d, g, dir, files, id) && Clear(files, id) && id !in files
    requires FileSound(d, g, dir, id, NEW) && HasSlot(g, dir, id + 2) && NotSystem(g, id)
    ensures Spaced(g, dir, files[id := NEW]) && OthersSound(d, g, dir, files[id := NEW], -1)
  {
    var files' := files[id := NEW];
    hide FileSound, HasSlot;
    forall j {:trigger files'[j]} | j in files' && j != -1 ensures FileSound(d, g, dir, j, files'[j]) {
      if j != id {
        assert files'[j] == files[j];
      }
    }
  }

  lemma {:induction false} DirectoryNew(d: Disk, g: Geometry, dir: seq<nat>, files: map<nat, Meta>, id: nat)
    requires Typed(d, g, dir, files) && Directory(d, g, dir, files, id) && SetTypes(d, g, dir, id)
    ensures Typed(d, g, dir, files[id := NEW]) && Directory(d, g, dir, files[id := NEW], -1)
  {
    var files' := files[id := NEW];
    hide Slot, HasSlot, SetTypes;
    forall j {:trigger SetTypes(d, g, dir, j)} | j in files' ensures SetTypes(d, g, dir, j) {
      assert j != id ==> j in files;
    }
    forall i: nat {:trigger SlotRight(d, g, dir, files', i)} | HasSlot(g, dir, i) && !(id <= i <= id + 2)
      ensures SlotRight(d, g, dir, files', i) {
      assert SlotRight(d, g, dir, files, i) && (InSet(files', i) <==> InSet(files, i));
    }
    assert Directory(d, g, dir, files', id);
    DirectoryWhole(d, g, dir, files', id);
  }

  lemma {:induction false} OwnedNew(files: map<nat, Meta>, owner: map<nat, nat>, id: nat)
    requires Owned(files, owner) && id !in files
    ensures Owned(files[id := NEW], owner)
  {
    var files' := files[id := NEW];
    forall j, k {:trigger files'[j].chain[k]} | j in files' && 0 <= k < |files'[j].chain|
      ensures files'[j].chain[k] in owner && owner[files'[j].chain[k]] == j {
      assert files[j].chain[k] in owner && owner[files[j].chain[k]] == j;
    }
  }

  /** Dropping a file and its clusters. */
  lemma {:induction false} FsDrop(d: Disk, g: Geometry, reserved: set<nat>, dir: seq<nat>, files: map<nat, Meta>,
      owner: map<nat, nat>, id: nat)
    requires Fs(d, g, reserved, dir, files, owner, id) && id in files
    ensures Fs(d, g, reserved, dir, files - {id}, owner - Elements(files[id].chain), id) && Clear(files - {id}, id)
  {
    var files' := files - {id};
    OwnedDrop(files, owner, id);
    DirectoryDrop(d, g, dir, files, id);
    hide FileSound, Owned, Elements, Typed, Directory;
    forall j {:trigger files'[j]} | j in files' && j != id ensures FileSound(d, g, dir, j, files'[j]) {
      assert files'[j] == files[j];
    }
  }

  lemma {:induction false} DirectoryDrop(d: Disk, g: Geometry, dir: seq<nat>, files: map<nat, Meta>, id: nat)
    requires Typed(d, g, dir, files) && Directory(d, g, dir, files, id)
    ensures Typed(d, g, dir, files - {id}) && Directory(d, g, dir, files - {id}, id)
  {
    var files' := files - {id};
    hide Slot, HasSlot, SetTypes;
    forall j {:trigger SetTypes(d, g, dir, j)} | j in files' ensures SetTypes(d, g, dir, j) {
      assert j in files;
    }
    forall i: nat {:trigger SlotRight(d, g, dir, files', i)} | HasSlot(g, dir, i) && !(id <= i <= id + 2)
      ensures SlotRight(d, g, dir, files', i) {
      assert SlotRight(d, g, dir, files, i) && (InSet(files', i) <==> InSet(files, i));
    }
  }

  /** With the slots of ex not in use, the whole directory is right. */
  lemma {:induction false} DirectoryFreed(d: Disk, g: Geometry, dir: seq<nat>, files: map<nat, Meta>, id: nat)
    requires Directory(d, g, dir, files, id) && Clear(files, id) && NotSystem(g, id)
    requires forall i: nat {:trigger Slot(d, g, dir, i)} :: id <= i <= id + 2 ==> !InUse(Slot(d, g, dir, i))
    ensures Directory(d, g, dir, files, -1)
  {
    hide Slot, HasSlot;
    forall i: nat {:trigger SlotRight(d, g, dir, files, i)} | HasSlot(g, dir, i)
      ensures SlotRight(d, g, dir, files, i) {
      if id <= i <= id + 2 {
        assert !InUse(Slot(d, g, dir, i)) && !InSet(files, i);
      }
    }
  }

  lemma {:induction false} OwnedDrop(files: map<nat, Meta>, owner: map<nat, nat>, id: nat)
    requires Owned(files, owner) && id in files
    ensures Owned(files - {id}, owner - Elements(files[id].chain))
    ensures Elements(files[id].chain) <= owner.Keys
  {
    var files', owner' := files - {id}, owner - Elements(files[id].chain);
    forall j, k {:trigger files'[j].chain[k]} | j in files' && 0 <= k < |files'[j].chain|
      ensures files'[j].chain[k] in owner' && owner'[files'[j].chain[k]] == j {
      assert files[j].chain[k] in owner && owner[files[j].chain[k]] == j;
      ElementOwned(files, owner, id, files[j].chain[k]);
    }
    forall x {:trigger x in owner'} | x in owner' ensures owner'[x] in files' && x in files'[owner'[x]].chain {
      assert x in owner;
      if owner[x] == id {
        ElementOf(files[id].chain, x);
      }
    }
    forall x | x in Elements(files[id].chain) ensures x in owner {
      ElementOwned(files, owner, id, x);
    }
  }

  lemma {:induction false} ElementOf(chain: seq<nat>, x: nat)
    ensures x in chain <==> x in Elements(chain)
  {
  }

  lemma {:induction false} ElementOwned(files: map<nat, Meta>, owner: map<nat, nat>, id: nat, x: nat)
    requires Owned(files, owner) && id in files
    ensures x in Elements(files[id].chain) ==> x in owner && owner[x] == id
  {
    if x in Elements(files[id].chain) {
      var k :| 0 <= k < |files[id].chain| && files[id].chain[k] == x;
    }
  }
}
