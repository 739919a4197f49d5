/** The search of `exfat_create` for directory slots. */
module ExfatCreate {
  import opened Shifts
  import opened Bits
  import opened LittleEndian
  import opened RowMajor
  import opened ExfatDisk
  import opened ExfatState
  import opened ExfatVolume
  import opened Exfat
  import opened ExfatFile

  /** The search looks at so many slots. */
  const SEARCHED: nat := 1024

  /** Slot i is one that the search looks at. */
  ghost predicate Seen(g: Geometry, dir: seq<nat>, i: nat) { i < SEARCHED && HasSlot(g, dir, i) }

  ghost predicate FreeAt(d: Disk, g: Geometry, dir: seq<nat>, i: nat)
  {
    Seen(g, dir, i) && !InUse(Slot(d, g, dir, i))
  }

  /** Three free slots in a row. */
  ghost predicate Run(d: Disk, g: Geometry, dir: seq<nat>, i: nat)
  {
    FreeAt(d, g, dir, i) && FreeAt(d, g, dir, i + 1) && FreeAt(d, g, dir, i + 2)
  }

  /** What the search has seen before idx: no run yet, cnt free slots just before idx, and the
      start of the last free stretch in found. */
  ghost predicate Searching(d: Disk, g: Geometry, dir: seq<nat>, idx: nat, cnt: nat, found: int)
  {
    && cnt <= 2 && cnt <= idx && (forall j: nat {:trigger Run(d, g, dir, j)} :: j + 2 < idx ==> !Run(d, g, dir, j))
    && (forall j: nat {:trigger FreeAt(d, g, dir, j)} :: idx - cnt <= j < idx ==> FreeAt(d, g, dir, j))
    && (cnt < idx ==> !FreeAt(d, g, dir, idx - cnt - 1))
    && -1 <= found < idx && (cnt > 0 ==> found == idx - cnt)
    && (found == -1 ==> cnt == 0 && forall j: nat {:trigger FreeAt(d, g, dir, j)} :: j < idx ==> !FreeAt(d, g, dir, j))
    && (found >= 0 ==> FreeAt(d, g, dir, found))
    && (found >= 0 && cnt == 0 ==> (found + 1 < idx && !FreeAt(d, g, dir, found + 1))
                                    || (found + 2 < idx && !FreeAt(d, g, dir, found + 2)))
  }

  /** Where the search ends: the first run if there is one, and otherwise the start of a free
      stretch that is too short, or -1 if no slot is free. */
  ghost predicate Found(d: Disk, g: Geometry, dir: seq<nat>, found: int)
  {
    && -1 <= found
    && (found == -1 <==> forall j: nat {:trigger FreeAt(d, g, dir, j)} :: !FreeAt(d, g, dir, j))
    && (found >= 0 ==> FreeAt(d, g, dir, found))
    && (found >= 0 && Run(d, g, dir, found) ==> forall j: nat {:trigger Run(d, g, dir, j)} :: j < found ==>
         !Run(d, g, dir, j))
    && (found >= 0 && !Run(d, g, dir, found) ==> forall j: nat {:trigger Run(d, g, dir, j)} :: !Run(d, g, dir, j))
  }

  /** The loop of `exfat_create`. */
  method FindSlots(fs: FileSystem) returns (found: int)
    requires fs.Inv(-1)
    ensures Found(fs.vol.disk, fs.vol.g, fs.vol.dir, found)
  {
    hide Fs, Sane, System, Marked, Slot, Epc, HasSlot, Searching, Found, Run, FreeAt, Bit;
    ghost var d, g, dir := fs.vol.disk, fs.vol.g, fs.vol.dir;
    DirProper(d, g, fs.vol.reserved, dir);
    found := -1;
    var idx: nat, cnt: nat := 0, 0;
    SearchStart(d, g, dir);
    while idx < SEARCHED
      invariant idx <= SEARCHED && Searching(d, g, dir, idx, cnt, found)
    {
      var ok, e := fs.vol.ReadDirEntry(idx);
      if !ok {
        SearchEnd(d, g, dir, idx, cnt, found);
        return;
      }
      SearchStep(d, g, dir, idx, cnt, found, e);
      if e[0] == 0 || !Bit(e[0], 7) {
        if cnt == 0 {
          found := idx;
        }
        cnt := cnt + 1;
        if cnt >= 3 {
          return;
        }
      } else {
        cnt := 0;
      }
      idx := idx + 1;
    }
    SearchEnd(d, g, dir, idx, cnt, found);
  }

  lemma {:induction false} SearchStart(d: Disk, g: Geometry, dir: seq<nat>)
    ensures Searching(d, g, dir, 0, 0, -1)
  {
  }

  lemma {:induction false} SearchStep(d: Disk, g: Geometry, dir: seq<nat>, idx: nat, cnt: nat, found: int, e: seq<Byte>)
    requires Searching(d, g, dir, idx, cnt, found) && Seen(g, dir, idx) && e == Slot(d, g, dir, idx)
    ensures var free := e[0] == 0 || !Bit(e[0], 7);
      && (free <==> FreeAt(d, g, dir, idx)) && cnt <= 2
      && (free && cnt < 2 ==> Searching(d, g, dir, idx + 1, cnt + 1, if cnt == 0 then idx else found))
      && (free && cnt == 2 ==> Found(d, g, dir, found))
      && (!free ==> Searching(d, g, dir, idx + 1, 0, found))
  {
    TypesInUse();
    hide Slot, HasSlot, Bit, Seen;
    var free := e[0] == 0 || !Bit(e[0], 7);
    assert free <==> FreeAt(d, g, dir, idx);
    if free && cnt < 2 {
      StepFree(d, g, dir, idx, cnt, found);
    } else if free {
      StepDone(d, g, dir, idx, found);
    } else {
      StepTaken(d, g, dir, idx, cnt, found);
    }
  }

  lemma {:induction false} StepFree(d: Disk, g: Geometry, dir: seq<nat>, idx: nat, cnt: nat, found: int)
    requires Searching(d, g, dir, idx, cnt, found) && FreeAt(d, g, dir, idx) && cnt < 2
    ensures Searching(d, g, dir, idx + 1, cnt + 1, if cnt == 0 then idx else found)
  {
    hide FreeAt;
    assert idx >= 2 && cnt == 1 ==> !FreeAt(d, g, dir, idx - 2);
    assert idx >= 1 && cnt == 0 ==> !FreeAt(d, g, dir, idx - 1);
  }

  lemma {:induction false} StepDone(d: Disk, g: Geometry, dir: seq<nat>, idx: nat, found: int)
    requires Searching(d, g, dir, idx, 2, found) && FreeAt(d, g, dir, idx)
    ensures Found(d, g, dir, found)
  {
    hide FreeAt;
    assert found == idx - 2 && FreeAt(d, g, dir, found + 1);
  }

  lemma {:induction false} StepTaken(d: Disk, g: Geometry, dir: seq<nat>, idx: nat, cnt: nat, found: int)
    requires Searching(d, g, dir, idx, cnt, found) && !FreeAt(d, g, dir, idx)
    ensures Searching(d, g, dir, idx + 1, 0, found)
  {
    hide FreeAt;
  }

  /** At the end of the directory, or after the last slot that is looked at. */
  lemma {:induction false} SearchEnd(d: Disk, g: Geometry, dir: seq<nat>, idx: nat, cnt: nat, found: int)
    requires Searching(d, g, dir, idx, cnt, found) && !Seen(g, dir, idx)
    ensures Found(d, g, dir, found)
  {
    hide Slot, Epc, Bit;
    forall j: nat {:trigger FreeAt(d, g, dir, j)} | j >= idx ensures !FreeAt(d, g, dir, j) {
    }
    hide FreeAt, Seen;
    forall j: nat {:trigger Run(d, g, dir, j)} ensures !Run(d, g, dir, j) {
      if j + 2 >= idx {
        assert !FreeAt(d, g, dir, j + 2);
      }
    }
  }

  /** `exfat_create` when there are three free slots in a row, or no free slot at all: the
      file gets the first run. */
  method CreateNew(fs: FileSystem, name: seq<Byte>) returns (h: Handle?)
    requires fs.Inv(-1) && 0 < |name| <= 15
    requires (forall j: nat {:trigger FreeAt(fs.vol.disk, fs.vol.g, fs.vol.dir, j)} ::
               !FreeAt(fs.vol.disk, fs.vol.g, fs.vol.dir, j))
             || exists j: nat :: Run(fs.vol.disk, fs.vol.g, fs.vol.dir, j)
    modifies fs, fs.vol
    ensures fs.Inv(-1) && fs.owner == old(fs.owner)
    ensures h == null <==> forall j: nat {:trigger Run(old(fs.vol.disk), fs.vol.g, fs.vol.dir, j)} ::
      !Run(old(fs.vol.disk), fs.vol.g, fs.vol.dir, j)
    ensures h == null ==> fs.files == old(fs.files) && fs.vol.disk == old(fs.vol.disk)
    ensures h != null ==>
      fresh(h) && fs.Ready(h) && h.index !in old(fs.files)
      && fs.files == old(fs.files)[h.index := NEW] && NewSet(fs.vol.disk, fs.vol.g, fs.vol.dir, h.index, name)
      && Run(old(fs.vol.disk), fs.vol.g, fs.vol.dir, h.index)
      && forall j: nat {:trigger Run(old(fs.vol.disk), fs.vol.g, fs.vol.dir, j)} :: j < h.index ==>
        !Run(old(fs.vol.disk), fs.vol.g, fs.vol.dir, j)
  {
    hide Fs, Sane, System, Marked, Slot, Epc, HasSlot, FreeAt, Bit, Head, Growing, Appending, NameEntry, NewSet;
    var found := FindSlots(fs);
    h := null;
    if found >= 0 {
      RunIsFree(fs.vol.disk, fs.vol.g, fs.vol.dir, found);
      h := fs.Create(found, name);
    }
  }

  lemma {:induction false} RunIsFree(d: Disk, g: Geometry, dir: seq<nat>, i: nat)
    requires Run(d, g, dir, i)
    ensures FreeSlots(d, g, dir, i)
  {
  }

  // ----- no three free slots in a row -----

  /** In a free stretch that is too short, what follows is the end of the directory or of the
      search, an entry of the volume, or a file. */
  lemma {:induction false} AfterShort(d: Disk, g: Geometry, reserved: set<nat>, dir: seq<nat>, files: map<nat, Meta>,
      owner: map<nat, nat>, i: nat)
    requires Fs(d, g, reserved, dir, files, owner, -1) && FreeAt(d, g, dir, i) && !Run(d, g, dir, i)
    ensures var j := if FreeAt(d, g, dir, i + 1) then i + 2 else i + 1;
      !Seen(g, dir, j) || j in g.system || j in files
  {
    hide Slot, Owned, OthersSound, Typed, HasSlot, Bit;
    var j := if FreeAt(d, g, dir, i + 1) then i + 2 else i + 1;
    if Seen(g, dir, j) && j !in g.system {
      assert SlotRight(d, g, dir, files, j) && SlotRight(d, g, dir, files, j - 1) && SlotRight(d, g, dir, files, i);
      InSetFirst(files, j);
    }
  }

  /** A slot of a set that follows a slot of none starts it. */
  lemma {:induction false} InSetFirst(files: map<nat, Meta>, j: nat)
    requires j > 0 && InSet(files, j) && !InSet(files, j - 1)
    ensures j in files
  {
  }

  /** `exfat_create` without three free slots in a row, but with a free one: the entries are
      written all the same, and a file whose entry set starts right after the free slots is
      no longer one. */
  method CreateCrowded(fs: FileSystem, name: seq<Byte>) returns (id: nat)
    requires fs.Inv(-1) && 0 < |name| <= 15
    requires forall j: nat {:trigger Run(fs.vol.disk, fs.vol.g, fs.vol.dir, j)} ::
      !Run(fs.vol.disk, fs.vol.g, fs.vol.dir, j)
    requires exists j: nat :: FreeAt(fs.vol.disk, fs.vol.g, fs.vol.dir, j)
    modifies fs.vol
    ensures FreeAt(old(fs.vol.disk), fs.vol.g, fs.vol.dir, id) && !Run(old(fs.vol.disk), fs.vol.g, fs.vol.dir, id)
    ensures forall j {:trigger j in fs.files} :: j in fs.files && id < j <= id + 2 ==>
      !SetTypes(fs.vol.disk, fs.vol.g, fs.vol.dir, j)
  {
    hide Fs, Sane, System, Marked, Slot, Epc, FreeAt, Bit, NameEntry, SameButSum, ChecksumRight, FatKept, DataKept;
    ghost var used, g, dir := Used(fs.vol.reserved, fs.owner), fs.vol.g, fs.vol.dir;
    var found := FindSlots(fs);
    id := found;
    DirProper(fs.vol.disk, g, fs.vol.reserved, dir);
    FilesHaveSlots(fs);
    var ok := PutEntry(fs, id, FILE_ENTRY, used);
    ok := PutEntry(fs, id + 1, [0xC0, 1, 0, |name|] + seq(28, i => 0), used);
    ok := PutEntry(fs, id + 2, NameEntry(name), used);
    ghost var d := fs.vol.disk;
    FreeHasSlot(old(fs.vol.disk), g, dir, id);
    ok := fs.vol.UpdateChecksum(id, used);
    forall j {:trigger j in fs.files} | j in fs.files && id < j <= id + 2
      ensures Slot(fs.vol.disk, g, dir, j)[0] != 0x85
    {
      assert Slot(fs.vol.disk, g, dir, j) == Slot(d, g, dir, j);
    }
  }

  lemma {:induction false} FreeHasSlot(d: Disk, g: Geometry, dir: seq<nat>, i: nat)
    requires FreeAt(d, g, dir, i)
    ensures HasSlot(g, dir, i)
  {
  }

  lemma {:induction false} FilesHaveSlots(fs: FileSystem)
    requires fs.Inv(-1)
    ensures forall j {:trigger j in fs.files} :: j in fs.files ==> HasSlot(fs.vol.g, fs.vol.dir, j)
  {
    hide Slot, Owned, OthersSound, Typed, Directory;
    forall j {:trigger j in fs.files} | j in fs.files ensures HasSlot(fs.vol.g, fs.vol.dir, j) {
      SlotBelow(fs.vol.g, fs.vol.dir, j, j + 2);
    }
  }

  /** Writing an entry, wherever it is. */
  method PutEntry(fs: FileSystem, j: nat, e: seq<Byte>, ghost used: set<nat>) returns (ok: bool)
    requires fs.vol.Core(used) && |e| == 32
    modifies fs.vol
    ensures fs.vol.Core(used) && SlotsKept(old(fs.vol.disk), fs.vol.disk, fs.vol.g, fs.vol.dir, {j})
    ensures HasSlot(fs.vol.g, fs.vol.dir, j) ==> Slot(fs.vol.disk, fs.vol.g, fs.vol.dir, j) == e
  {
    hide Sane, System, Marked, Slot, Epc, HasSlot, FatKept, DataKept, SlotsKept;
    DirProper(fs.vol.disk, fs.vol.g, fs.vol.reserved, fs.vol.dir);
    NothingKept(fs.vol.disk, fs.vol.g, fs.vol.dir, fs.vol.reserved);
    ok := fs.vol.WriteDirEntry(j, e);
    if ok {
      SlotChange(old(fs.vol.disk), fs.vol.disk, fs.vol.g, fs.vol.reserved, fs.vol.dir, j, used);
    } else {
      NoneKept(fs.vol.disk, fs.vol.g, fs.vol.dir, j);
    }
  }

  lemma {:induction false} NoneKept(d: Disk, g: Geometry, dir: seq<nat>, j: nat)
    ensures SlotsKept(d, d, g, dir, {j})
  {
  }
}
