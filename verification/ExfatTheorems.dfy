/** Whole runs on a volume: creating, appending and removing in any order against a plain
    map from files to bytes. */
module ExfatTheorems {
  import opened LittleEndian
  import opened RowMajor
  import opened ExfatDisk
  import opened ExfatState
  import opened ExfatVolume
  import opened Exfat
  import opened ExfatFile
  import opened ExfatCreate

  datatype Command =
    | CCreate(name: seq<Byte>)
    | CAppend(id: nat, bytes: seq<Byte>)
    | CRemove(id: nat)

  /** A directory as far as creating files is concerned: how many slots the search looks at,
      and which of them are the volume's own. */
  datatype Layout = Layout(slots: nat, system: set<nat>)

  /** Slot i belongs to none of the files. */
  predicate Unused(l: Layout, taken: set<nat>, i: nat)
  {
    i !in l.system && i !in taken && (1 <= i ==> i - 1 !in taken) && (2 <= i ==> i - 2 !in taken)
  }

  /** The three slots from i on are looked at and belong to no file. */
  predicate Vacant(l: Layout, taken: set<nat>, i: nat)
  {
    i + 2 < l.slots && Unused(l, taken, i) && Unused(l, taken, i + 1) && Unused(l, taken, i + 2)
  }

  /** The first such place from i on, or -1. */
  function FirstVacant(l: Layout, taken: set<nat>, i: nat): (r: int)
    ensures r == -1 || (i <= r && Vacant(l, taken, r))
    ensures forall j {:trigger Vacant(l, taken, j)} :: i <= j && (r == -1 || j < r) ==> !Vacant(l, taken, j)
    decreases l.slots - i
  {
    if i >= l.slots then -1 else if Vacant(l, taken, i) then i else FirstVacant(l, taken, i + 1)
  }

  /** The name fits one name entry. */
  predicate Short(name: seq<Byte>) { 0 < |name| <= 15 }

  /** What a command means: files by the index of their entry, with their bytes. */
  function Act(t: map<nat, seq<Byte>>, c: Command, l: Layout): map<nat, seq<Byte>>
  {
    match c
    case CCreate(name) =>
      var id := FirstVacant(l, t.Keys, 0);
      if Short(name) && id >= 0 then t[id := []] else t
    case CAppend(id, bytes) => if id in t then t[id := t[id] + bytes] else t
    case CRemove(id) => t - {id}
  }

  function ActAll(t: map<nat, seq<Byte>>, cmds: seq<Command>, l: Layout): map<nat, seq<Byte>>
  {
    if cmds == [] then t else Act(ActAll(t, cmds[..|cmds| - 1], l), cmds[|cmds| - 1], l)
  }

  /** The files hold what the map says. */
  ghost predicate Holding(files: map<nat, Meta>, t: map<nat, seq<Byte>>)
  {
    files.Keys == t.Keys && forall id {:trigger files[id]} {:trigger t[id]} :: id in t ==> files[id].content == t[id]
  }

  /** The fields of a handle that stands at the end of file m. */
  ghost predicate AtEnd(g: Geometry, m: Meta, first: nat, current: nat, offset: nat, size: nat, position: nat,
      contiguous: bool)
  {
    && size == position == |m.content| && contiguous == !m.linked
    && if m.chain == [] then first == 0 && offset == 0 && m.content == [] && m.linked
       else
         first == m.chain[0] && current == m.chain[|m.chain| - 1] && 0 < offset <= Bpc(g)
         && |m.content| == At(offset, |m.chain| - 1, Bpc(g))
  }

  ghost predicate HandleFits(g: Geometry, m: Meta, h: Handle)
    reads h
  {
    AtEnd(g, m, h.first, h.current, h.offset, h.size, h.position, h.noFatChain)
  }

  /** On a sound volume a handle at the end of its file is ready to append. */
  lemma {:induction false} EndIsReady(fs: FileSystem, h: Handle)
    requires fs.Inv(-1) && h.index in fs.files
    ensures HandleFits(fs.vol.g, fs.files[h.index], h) <==> fs.Ready(h)
  {
    hide Slot, Epc, System, Marked, Sane, Holds, Linked;
    assert FileSound(fs.vol.disk, fs.vol.g, fs.vol.dir, h.index, fs.files[h.index]);
  }

  /** The handles are those of the files, each at the end of its file. */
  ghost predicate HandlesFit(g: Geometry, files: map<nat, Meta>, hs: map<nat, Handle>)
    reads hs.Values
  {
    hs.Keys == files.Keys && forall i {:trigger hs[i]} :: i in hs ==> hs[i].index == i && HandleFits(g, files[i], hs[i])
  }

  /** The layout of the directory of a volume. */
  ghost predicate LaidOut(fs: FileSystem, l: Layout)
  {
    l.system == fs.vol.g.system && forall i: nat {:trigger Seen(fs.vol.g, fs.vol.dir, i)} ::
      Seen(fs.vol.g, fs.vol.dir, i) <==> i < l.slots
  }

  /** The free runs on the disk are the vacant places of the map. */
  lemma {:induction false} RunsVacant(fs: FileSystem, l: Layout, i: nat)
    requires fs.Inv(-1) && LaidOut(fs, l)
    ensures Run(fs.vol.disk, fs.vol.g, fs.vol.dir, i) <==> Vacant(l, fs.files.Keys, i)
  {
    hide Fs, Slot, Epc, System, Marked, Sane, Seen;
    FreeUnused(fs, l, i);
    FreeUnused(fs, l, i + 1);
    FreeUnused(fs, l, i + 2);
    assert Seen(fs.vol.g, fs.vol.dir, i) <==> i < l.slots;
    assert Seen(fs.vol.g, fs.vol.dir, i + 1) <==> i + 1 < l.slots;
    assert Seen(fs.vol.g, fs.vol.dir, i + 2) <==> i + 2 < l.slots;
    hide FreeAt;
  }

  lemma {:induction false} FreeUnused(fs: FileSystem, l: Layout, i: nat)
    requires fs.Inv(-1) && LaidOut(fs, l)
    ensures FreeAt(fs.vol.disk, fs.vol.g, fs.vol.dir, i) <==>
      Seen(fs.vol.g, fs.vol.dir, i) && Unused(l, fs.files.Keys, i)
  {
    hide Owned, OthersSound, Typed, Spaced, OwnerRange, Slot, System, Marked, Sane, Epc, InUse;
    assert HasSlot(fs.vol.g, fs.vol.dir, i) ==> SlotRight(fs.vol.disk, fs.vol.g, fs.vol.dir, fs.files, i);
  }

  /** The search finds what the map says. */
  lemma {:induction false} FirstRun(fs: FileSystem, l: Layout)
    requires fs.Inv(-1) && LaidOut(fs, l)
    ensures var id := FirstVacant(l, fs.files.Keys, 0);
      && (id >= 0 ==> Run(fs.vol.disk, fs.vol.g, fs.vol.dir, id))
      && forall j: nat {:trigger Run(fs.vol.disk, fs.vol.g, fs.vol.dir, j)} :: id == -1 || j < id ==>
        !Run(fs.vol.disk, fs.vol.g, fs.vol.dir, j)
  {
    hide Fs, System, Marked, Sane, Run, Vacant, LaidOut;
    forall j: nat ensures Run(fs.vol.disk, fs.vol.g, fs.vol.dir, j) <==> Vacant(l, fs.files.Keys, j) {
      RunsVacant(fs, l, j);
    }
  }

  /** One command. A command that stops the run is an append for which no cluster is left, or
      the creation of a file in a directory without three free slots in a row. */
  method Step(fs: FileSystem, c: Command, hs: map<nat, Handle>, scratch: seq<Byte>, l: Layout,
      ghost t: map<nat, seq<Byte>>)
    returns (hs': map<nat, Handle>, short: bool)
    requires fs.Inv(-1) && HandlesFit(fs.vol.g, fs.files, hs) && Holding(fs.files, t) && |scratch| == Bpc(fs.vol.g)
      && LaidOut(fs, l)
    modifies fs, fs.vol, hs.Values
    ensures fs.Inv(-1) && HandlesFit(fs.vol.g, fs.files, hs') && fresh(hs'.Values - hs.Values)
    ensures !short ==> Holding(fs.files, Act(t, c, l))
    ensures short ==> if c.CCreate? then FirstVacant(l, t.Keys, 0) == -1 else fs.Full()
  {
    hide Fs, Slot, Epc, System, Marked, Sane, AtEnd, Holding, HandlesFit;
    hs', short := hs, false;
    match c
    case CCreate(_) => hs', short := StepCreate(fs, c, hs, l, t);
    case CAppend(_, _) => short := StepAppend(fs, c, hs, scratch, t);
    case CRemove(_) => hs' := StepRemove(fs, c, hs, t);
  }

  method StepCreate(fs: FileSystem, c: Command, hs: map<nat, Handle>, l: Layout, ghost t: map<nat, seq<Byte>>)
      returns (hs': map<nat, Handle>, short: bool)
    requires fs.Inv(-1) && HandlesFit(fs.vol.g, fs.files, hs) && Holding(fs.files, t) && LaidOut(fs, l) && c.CCreate?
    modifies fs, fs.vol
    ensures fs.Inv(-1) && HandlesFit(fs.vol.g, fs.files, hs') && fresh(hs'.Values - hs.Values)
    ensures !short ==> Holding(fs.files, Act(t, c, l))
    ensures short ==> FirstVacant(l, t.Keys, 0) == -1
  {
    hide Fs, Slot, Epc, System, Marked, Sane, AtEnd, Run, Vacant, FreeAt, LaidOut, NewSet;
    hs', short := hs, false;
    if !Short(c.name) {
      return;
    }
    if FirstVacant(l, hs.Keys, 0) == -1 {
      short := true;
      return;
    }
    FirstRun(fs, l);
    var h := CreateNew(fs, c.name);
    EndIsReady(fs, h);
    hs' := hs[h.index := h];
  }

  method StepAppend(fs: FileSystem, c: Command, hs: map<nat, Handle>, scratch: seq<Byte>, ghost t: map<nat,
      seq<Byte>>) returns (short: bool)
    requires fs.Inv(-1) && HandlesFit(fs.vol.g, fs.files, hs) && Holding(fs.files, t) && |scratch| == Bpc(fs.vol.g)
      && c.CAppend?
    modifies fs, fs.vol, hs.Values
    ensures fs.Inv(-1) && HandlesFit(fs.vol.g, fs.files, hs)
    ensures forall l: Layout {:trigger Act(t, c, l)} :: !short ==> Holding(fs.files, Act(t, c, l))
    ensures short ==> fs.Full()
  {
    hide Fs, Slot, Epc, System, Marked, Sane, AtEnd, Growing, Appending, Head, Holding, Act, Others;
    short := false;
    AbsentAppend(fs.files, t, c);
    if c.id in hs {
      var h := hs[c.id];
      assert h in hs.Values;
      EndIsReady(fs, h);
      ghost var files := fs.files;
      var done := fs.Write(h, c.bytes, scratch);
      OthersFit(fs.vol.g, files, fs.files, c.id);
      EndIsReady(fs, h);
      if done < |c.bytes| {
        short := true;
      } else {
        assert c.bytes[..done] == c.bytes;
        AppendHolds(files, fs.files, t, c);
      }
    }
  }

  lemma {:induction false} AbsentAppend(files: map<nat, Meta>, t: map<nat, seq<Byte>>, c: Command)
    requires Holding(files, t) && c.CAppend?
    ensures c.id !in files ==> forall l: Layout {:trigger Act(t, c, l)} :: Act(t, c, l) == t
  {
  }

  lemma {:induction false} OthersFit(g: Geometry, files: map<nat, Meta>, files': map<nat, Meta>, id: nat)
    requires Others(files, files', id)
    ensures files'.Keys == files.Keys && forall j {:trigger files'[j]} :: j in files && j != id ==>
      files'[j] == files[j]
  {
  }

  lemma {:induction false} AppendHolds(files: map<nat, Meta>, files': map<nat, Meta>, t: map<nat, seq<Byte>>,
      c: Command)
    requires Holding(files, t) && c.CAppend? && c.id in files && Others(files, files', c.id)
      && files'[c.id].content == files[c.id].content + c.bytes
    ensures forall l: Layout {:trigger Act(t, c, l)} :: Holding(files', Act(t, c, l))
  {
    assert files[c.id].content == t[c.id];
  }

  method StepRemove(fs: FileSystem, c: Command, hs: map<nat, Handle>, ghost t: map<nat, seq<Byte>>)
      returns (hs': map<nat, Handle>)
    requires fs.Inv(-1) && HandlesFit(fs.vol.g, fs.files, hs) && Holding(fs.files, t) && c.CRemove?
    modifies fs, fs.vol
    ensures fs.Inv(-1) && HandlesFit(fs.vol.g, fs.files, hs') && hs'.Values <= hs.Values
    ensures forall l: Layout {:trigger Act(t, c, l)} :: Holding(fs.files, Act(t, c, l))
  {
    hide Fs, Slot, Epc, System, Marked, Sane, AtEnd, Elements;
    hs' := hs;
    if c.id in hs {
      fs.Remove(c.id);
      hs' := hs - {c.id};
    }
  }

  /** Any run of commands from an empty volume: unless it fills up, the files hold what the
      same commands make of a plain map, whatever clusters were allocated on the way. The
      set bits stay those of the reserved clusters and of the files' disjoint chains, and the
      entry sets in use those of the files. */
  method Session(fs: FileSystem, cmds: seq<Command>, scratch: seq<Byte>, l: Layout)
      returns (hs: map<nat, Handle>, short: bool)
    requires fs.Inv(-1) && fs.files == map[] && |scratch| == Bpc(fs.vol.g) && LaidOut(fs, l)
    modifies fs, fs.vol
    ensures fs.Inv(-1) && HandlesFit(fs.vol.g, fs.files, hs)
    ensures !short ==> Holding(fs.files, ActAll(map[], cmds, l))
    ensures forall i: nat {:trigger Slot(fs.vol.disk, fs.vol.g, fs.vol.dir, i)} ::
      HasSlot(fs.vol.g, fs.vol.dir, i) && i !in fs.vol.g.system ==>
        (Slot(fs.vol.disk, fs.vol.g, fs.vol.dir, i)[0] == 0x85 <==> i in fs.files)
  {
    hide Fs, Slot, Epc, System, Marked, Sane, Act, Holding, AtEnd, LaidOut, HasSlot;
    hs, short := map[], false;
    assert cmds[..0] == [];
    StartEmpty(fs.files);
    FilesListed(fs);
    for i := 0 to |cmds|
      invariant fs.Inv(-1) && HandlesFit(fs.vol.g, fs.files, hs) && fresh(hs.Values)
      invariant Holding(fs.files, ActAll(map[], cmds[..i], l))
    {
      assert cmds[..i + 1][..i] == cmds[..i];
      hs, short := Step(fs, cmds[i], hs, scratch, l, ActAll(map[], cmds[..i], l));
      if short {
        FilesListed(fs);
        return;
      }
    }
    FilesListed(fs);
    assert cmds[..|cmds|] == cmds;
  }

  /** The file entries in the directory are the files. */
  lemma {:induction false} FilesListed(fs: FileSystem)
    requires fs.Inv(-1)
    ensures forall i: nat {:trigger Slot(fs.vol.disk, fs.vol.g, fs.vol.dir, i)} ::
      HasSlot(fs.vol.g, fs.vol.dir, i) && i !in fs.vol.g.system ==>
        (Slot(fs.vol.disk, fs.vol.g, fs.vol.dir, i)[0] == 0x85 <==> i in fs.files)
  {
    hide Slot, Owned, OthersSound, OwnerRange, Spaced, Typed, Directory, System, Marked, Sane, HasSlot;
    forall i: nat {:trigger Slot(fs.vol.disk, fs.vol.g, fs.vol.dir, i)}
      | HasSlot(fs.vol.g, fs.vol.dir, i) && i !in fs.vol.g.system
      ensures Slot(fs.vol.disk, fs.vol.g, fs.vol.dir, i)[0] == 0x85 <==> i in fs.files
    {
      EntriesAreFiles(fs.vol.disk, fs.vol.g, fs.vol.dir, fs.files, i);
    }
  }

  lemma {:induction false} StartEmpty(files: map<nat, Meta>)
    requires files == map[]
    ensures Holding(files, map[])
  {
  }

  /** Reopening a file and reading to its end gives its bytes. */
  method ReadBack(fs: FileSystem, id: nat) returns (buf: seq<Byte>)
    requires fs.Inv(-1) && id in fs.files
    ensures buf == fs.files[id].content
  {
    hide Fs, Slot, Epc, System, Marked, Sane, At;
    var h := fs.Open(id);
    ghost var k;
    buf, k := fs.Read(h, h.size, 0);
    assert fs.files[id].content[0..h.size] == fs.files[id].content;
  }

  /** Seeking to any place before the end and reading gives the bytes from there on. */
  method ReadAt(fs: FileSystem, id: nat, pos: nat, size: nat) returns (buf: seq<Byte>)
    requires fs.Inv(-1) && id in fs.files && pos < |fs.files[id].content|
    ensures buf == fs.files[id].content[pos..if pos + size <= |fs.files[id].content| then pos + size
      else |fs.files[id].content|]
  {
    hide Fs, Bpc, Slot, Rows, FileSystem.Inv;
    SizeInClusters(fs, id);
    var h := fs.Open(id);
    ghost var k := fs.Seek(h, pos);
    buf, k := fs.Read(h, size, k);
  }

  lemma {:induction false} SizeInClusters(fs: FileSystem, id: nat)
    requires fs.Inv(-1) && id in fs.files
    ensures |fs.files[id].content| <= Rows(|fs.files[id].chain|, Bpc(fs.vol.g))
  {
    SoundFile(fs.vol.disk, fs.vol.g, fs.vol.reserved, fs.vol.dir, fs.files, fs.owner, id);
    hide Fs, Slot, Rows;
  }
}
