/** Loading a relocatable module: section layout, copying and relocation. */
module ElfModule {
  import opened Shifts
  import opened LittleEndian
  import opened Wrappers

  // ----- layout -----

  /** A section header: the alignment is 2 to the power of align, and addr is the field
      `sh_addr` that the loader fills in. */
  datatype Section = Section(alloc: bool, nobits: bool, align: nat, size: nat, offset: nat, addr: nat)

  /** `mod_align_up` for an alignment of 2 to the power of k. */
  function AlignUp(v: nat, k: nat): (r: nat)
  {
    if k == 0 then v else Shl(Shr(v + Pow2(k) - 1, k), k)
  }

  /** The least multiple that is not smaller. */
  lemma {:induction false} AlignUpLeast(v: nat, k: nat, q: nat)
    ensures v <= AlignUp(v, k) < v + Pow2(k)
    ensures AlignUp(v, k) == Shl(Shr(AlignUp(v, k), k), k)
    ensures v <= Shl(q, k) ==> AlignUp(v, k) <= Shl(q, k)
  {
    if k > 0 {
      var x := v + Pow2(k) - 1;
      var p := Shr(x, k);
      ShrShl(x, k);
      ShlPlus(p, 1, k);
      ShrOfShl(p, k);
      if q < p {
        ShlMonotone(q + 1, p, k);
        ShlPlus(q, 1, k);
      } else {
        ShlMonotone(p, q, k);
      }
    }
  }

  function End(s: Section): nat { s.addr + s.size }

  /** Sections a and b do not overlap and a comes first. */
  predicate Before(a: Section, b: Section) { End(a) <= b.addr }

  /** The first n allocated sections are aligned, in order, disjoint and end by size. */
  ghost predicate LaidOut(ss: seq<Section>, n: nat, size: nat)
    requires n <= |ss|
  {
    && (forall i {:trigger ss[i]} :: 0 <= i < n && ss[i].alloc ==>
         ss[i].addr == Shl(Shr(ss[i].addr, ss[i].align), ss[i].align) && End(ss[i]) <= size)
    && (forall i, j {:trigger ss[i], ss[j]} :: 0 <= i < j < n && ss[i].alloc && ss[j].alloc ==> Before(ss[i], ss[j]))
  }

  /** Where the last allocated section of the first n ends. */
  function EndBefore(ss: seq<Section>, n: nat): nat
    requires n <= |ss|
  {
    if n == 0 then 0 else if ss[n - 1].alloc then End(ss[n - 1]) else EndBefore(ss, n - 1)
  }

  /** Every allocated section starts at the first aligned byte after the one before it. */
  ghost predicate Tight(ss: seq<Section>, n: nat)
    requires n <= |ss|
  {
    forall i {:trigger ss[i]} :: 0 <= i < n && ss[i].alloc ==>
      EndBefore(ss, i) <= ss[i].addr < EndBefore(ss, i) + Pow2(ss[i].align)
  }

  /** All but the address is as it was. */
  ghost predicate OnlyPlaced(ss: seq<Section>, ss': seq<Section>)
  {
    |ss'| == |ss| && forall i {:trigger ss'[i]} :: 0 <= i < |ss| ==>
      ss'[i] == ss[i].(addr := ss'[i].addr) && (!ss[i].alloc ==> ss'[i] == ss[i])
  }

  /** The first pass of `elf_load_module`. */
  method Layout(sections: array<Section>) returns (size: nat)
    modifies sections
    ensures OnlyPlaced(old(sections[..]), sections[..]) && LaidOut(sections[..], sections.Length, size)
    ensures Tight(sections[..], sections.Length) && size == EndBefore(sections[..], sections.Length)
  {
    hide AlignUp, Pow2;
    size := 0;
    for i := 0 to sections.Length
      invariant OnlyPlaced(old(sections[..]), sections[..]) && LaidOut(sections[..], i, size)
      invariant forall j :: i <= j < sections.Length ==> sections[j] == old(sections[j])
      invariant Tight(sections[..], i) && size == EndBefore(sections[..], i)
    {
      if sections[i].alloc {
        ghost var before := sections[..];
        AlignUpLeast(size, sections[i].align, 0);
        var at := AlignUp(size, sections[i].align);
        sections[i] := sections[i].(addr := at);
        Placed(before, sections[..], i, size, at);
        PlacedTight(before, sections[..], i, at);
        size := at + sections[i].size;
      }
    }
  }

  lemma {:induction false} Placed(ss: seq<Section>, ss': seq<Section>, i: nat, size: nat, at: nat)
    requires i < |ss| && ss[i].alloc && LaidOut(ss, i, size) && size <= at
      && at == Shl(Shr(at, ss[i].align), ss[i].align)
    requires ss' == ss[i := ss[i].(addr := at)]
    ensures LaidOut(ss', i + 1, at + ss[i].size)
  {
    forall j {:trigger ss'[j]} | 0 <= j < i ensures ss'[j] == ss[j] {
    }
  }

  lemma {:induction false} EndSame(ss: seq<Section>, ss': seq<Section>, n: nat)
    requires n <= |ss| == |ss'| && forall j :: 0 <= j < n ==> ss'[j] == ss[j]
    ensures EndBefore(ss', n) == EndBefore(ss, n)
  {
    if n > 0 {
      EndSame(ss, ss', n - 1);
    }
  }

  lemma {:induction false} PlacedTight(ss: seq<Section>, ss': seq<Section>, i: nat, at: nat)
    requires i < |ss| && ss[i].alloc && Tight(ss, i) && EndBefore(ss, i) <= at < EndBefore(ss, i) + Pow2(ss[i].align)
    requires ss' == ss[i := ss[i].(addr := at)]
    ensures Tight(ss', i + 1) && EndBefore(ss', i + 1) == at + ss[i].size
  {
    hide Pow2, EndBefore;
    forall j {:trigger ss'[j]} | 0 <= j < i + 1 && ss'[j].alloc
      ensures EndBefore(ss', j) <= ss'[j].addr < EndBefore(ss', j) + Pow2(ss'[j].align)
    {
      EndSame(ss, ss', j);
    }
    EndStep(ss', i);
  }

  lemma {:induction false} EndStep(ss: seq<Section>, i: nat)
    requires i < |ss| && ss[i].alloc
    ensures EndBefore(ss, i + 1) == End(ss[i])
  {
  }

  // ----- copying -----

  /** The file holds the sections that have bytes in it. */
  predicate InFile(s: Section, buf: seq<Byte>) { s.alloc && !s.nobits ==> s.offset + s.size <= |buf| }

  /** Byte x of the image lies in section s, which has bytes in the file. */
  predicate Within(s: Section, x: nat) { s.alloc && !s.nobits && s.addr <= x < End(s) }

  ghost predicate AllInFile(ss: seq<Section>, buf: seq<Byte>)
  {
    forall i {:trigger ss[i]} :: 0 <= i < |ss| ==> InFile(ss[i], buf)
  }

  /** What the first n sections put at byte x of the image. */
  ghost function Loaded(ss: seq<Section>, n: nat, buf: seq<Byte>, x: nat): Byte
    requires n <= |ss| && AllInFile(ss, buf)
  {
    if n == 0 then 0
    else if Within(ss[n - 1], x) then buf[ss[n - 1].offset + (x - ss[n - 1].addr)]
    else Loaded(ss, n - 1, buf, x)
  }

  /** The second pass: zeros, and the bytes of every section over them. */
  method CopySections(ss: seq<Section>, buf: seq<Byte>, size: nat) returns (image: array<Byte>)
    requires LaidOut(ss, |ss|, size) && AllInFile(ss, buf)
    ensures fresh(image) && image.Length == size
    ensures forall x :: 0 <= x < size ==> image[x] == Loaded(ss, |ss|, buf, x)
  {
    image := new Byte[size](i => 0);
    for n := 0 to |ss|
      invariant forall x :: 0 <= x < size ==> image[x] == Loaded(ss, n, buf, x)
    {
      if ss[n].alloc && !ss[n].nobits {
        var at, from := ss[n].addr, ss[n].offset;
        forall k | 0 <= k < ss[n].size {
          image[at + k] := buf[from + k];
        }
      }
    }
  }

  /** In a sound layout each byte of a section is its own: the file's, or zero. */
  lemma {:induction false} SectionBytes(ss: seq<Section>, n: nat, buf: seq<Byte>, size: nat, i: nat, k: nat)
    requires n <= |ss| && AllInFile(ss, buf) && LaidOut(ss, |ss|, size) && i < |ss| && ss[i].alloc && k < ss[i].size
    ensures Loaded(ss, n, buf, ss[i].addr + k) == if i < n && !ss[i].nobits then buf[ss[i].offset + k] else 0
  {
    if n > 0 {
      SectionBytes(ss, n - 1, buf, size, i, k);
      if n - 1 != i && ss[n - 1].alloc {
        assert if i < n - 1 then Before(ss[i], ss[n - 1]) else Before(ss[n - 1], ss[i]);
      }
    }
  }

  // ----- relocation -----

  datatype Kind = KNone | K64 | K32 | K32S | KPc32 | KPlt32 | KOther

  /** A relocation: the place in the image, the symbol's value and the addend. */
  datatype Reloc = Reloc(site: nat, kind: Kind, symbol: nat, addend: int)

  function Width(kind: Kind): nat
  {
    match kind
    case K64 => 8
    case K32 => 4
    case K32S => 4
    case KPc32 => 4
    case KPlt32 => 4
    case KNone => 0
    case KOther => 0
  }

  /** S + A or S + A - P of section 4.4 of the System V AMD64 ABI, for an image at base. */
  function Value(r: Reloc, base: nat): (v: nat)
  {
    match r.kind
    case K64 => (r.symbol + r.addend) % 0x1_0000_0000_0000_0000
    case K32 => (r.symbol + r.addend) % 0x1_0000_0000
    case K32S => (r.symbol + r.addend) % 0x1_0000_0000
    case KPc32 => (r.symbol + r.addend - (base + r.site)) % 0x1_0000_0000
    case KPlt32 => (r.symbol + r.addend - (base + r.site)) % 0x1_0000_0000
    case KNone => 0
    case KOther => 0
  }

  function Field(r: Reloc, base: nat): (s: seq<Byte>)
    ensures |s| == Width(r.kind)
  {
    LePut(Value(r, base), Width(r.kind))
  }

  /** The bytes at a site read back as the value. */
  lemma {:induction false} FieldReads(r: Reloc, base: nat)
    ensures LeGet(Field(r, base)) == Value(r, base)
  {
    if Width(r.kind) == 8 {
      FitsEight(Value(r, base));
    } else if Width(r.kind) == 4 {
      FitsFour(Value(r, base));
    }
    LeRoundTrip(Value(r, base), Width(r.kind));
  }

  /** The value as a 64-bit address or distance, before it is cut to the width of the field. */
  function Full(r: Reloc, base: nat): (v: nat)
    ensures v < 0x1_0000_0000_0000_0000
  {
    if r.kind.KPc32? || r.kind.KPlt32? then (r.symbol + r.addend - (base + r.site)) % 0x1_0000_0000_0000_0000
    else (r.symbol + r.addend) % 0x1_0000_0000_0000_0000
  }

  /** What the processor makes of a 32-bit field: an absolute one is extended with zeros, all
      others with the sign. */
  function Extended(kind: Kind, v: nat): (r: int)
  {
    if kind.K64? || kind.K32? || v < 0x8000_0000 then v else v + 0xffff_ffff_0000_0000
  }

  /** The full value is one that its field can hold. */
  predicate Holds(kind: Kind, v: nat)
  {
    kind.K64? || (if kind.K32? then v < 0x1_0000_0000 else v < 0x8000_0000 || v >= 0xffff_ffff_8000_0000)
  }

  /** Section 4.4 of the ABI has a linker check that the field extends to the value; this
      loader does not, and the field does so exactly if the value is in range. */
  lemma {:induction false} FieldExact(r: Reloc, base: nat)
    requires Width(r.kind) > 0
    ensures Extended(r.kind, LeGet(Field(r, base))) == Full(r, base) <==> Holds(r.kind, Full(r, base))
  {
    hide Field, LeGet;
    FieldReads(r, base);
    var x := if r.kind.KPc32? || r.kind.KPlt32? then r.symbol + r.addend - (base + r.site) else r.symbol + r.addend;
    CutTwice(x);
  }

  /** A 32-bit field for a symbol at 4 GiB reads as zero. */
  lemma {:induction false} FieldCut(r: Reloc, base: nat)
    requires r.kind.K32? && r.symbol == 0x1_0000_0000 && r.addend == 0
    ensures Extended(r.kind, LeGet(Field(r, base))) == 0 && Full(r, base) == 0x1_0000_0000
  {
    hide Field, LeGet;
    FieldReads(r, base);
  }

  lemma {:induction false} CutTwice(x: int)
    ensures x % 0x1_0000_0000_0000_0000 % 0x1_0000_0000 == x % 0x1_0000_0000
  {
    var q, y := x / 0x1_0000_0000_0000_0000, x % 0x1_0000_0000_0000_0000;
    Remainder(x, 0x1_0000_0000 * q + y / 0x1_0000_0000, y % 0x1_0000_0000);
  }

  lemma {:induction false} Remainder(x: int, q: int, b: nat)
    requires x == 0x1_0000_0000 * q + b && b < 0x1_0000_0000
    ensures x % 0x1_0000_0000 == b
  {
    var p := x / 0x1_0000_0000;
    assert p == q;
  }

  predicate Touches(r: Reloc, x: nat) { r.site <= x < r.site + Width(r.kind) }

  predicate InImage(r: Reloc, size: nat) { r.site + Width(r.kind) <= size }

  function Patched(image: seq<Byte>, r: Reloc, base: nat): (s: seq<Byte>)
    requires InImage(r, |image|)
    ensures |s| == |image|
  {
    image[..r.site] + Field(r, base) + image[r.site + Width(r.kind)..]
  }

  /** `mod_apply_rela` */
  method ApplyRela(image: array<Byte>, r: Reloc, base: nat)
    requires InImage(r, image.Length)
    modifies image
    ensures image[..] == Patched(old(image[..]), r, base)
  {
    var f := Field(r, base);
    forall k | 0 <= k < |f| {
      image[r.site + k] := f[k];
    }
  }

  /** The relocations one after the other. */
  function Relocated(image: seq<Byte>, rs: seq<Reloc>, base: nat): (s: seq<Byte>)
    requires forall i :: 0 <= i < |rs| ==> InImage(rs[i], |image|)
    ensures |s| == |image|
  {
    if rs == [] then image else Patched(Relocated(image, rs[..|rs| - 1], base), rs[|rs| - 1], base)
  }

  /** No two sites overlap. */
  ghost predicate Disjoint(rs: seq<Reloc>)
  {
    forall i, j, x {:trigger Touches(rs[i], x), Touches(rs[j], x)} :: 0 <= i < j < |rs| && Touches(rs[i], x) ==>
      !Touches(rs[j], x)
  }

  /** After all relocations with disjoint sites, each byte of a site is that of its own
      value. */
  lemma {:induction false} SiteByte(image: seq<Byte>, rs: seq<Reloc>, base: nat, i: nat, x: nat)
    requires (forall k :: 0 <= k < |rs| ==> InImage(rs[k], |image|)) && Disjoint(rs) && i < |rs| && Touches(rs[i], x)
    ensures x < |image| && Relocated(image, rs, base)[x] == Field(rs[i], base)[x - rs[i].site]
  {
    var n := |rs| - 1;
    if i < n {
      var rest := rs[..n];
      assert Touches(rest[i], x);
      assert !Touches(rs[n], x);
      forall j, k, y {:trigger Touches(rest[j], y), Touches(rest[k], y)} | 0 <= j < k < |rest| && Touches(rest[j], y)
        ensures !Touches(rest[k], y) {
        assert Touches(rs[j], y);
      }
      SiteByte(image, rest, base, i, x);
    }
  }

  /** Bytes outside all sites are untouched. */
  lemma {:induction false} OtherByte(image: seq<Byte>, rs: seq<Reloc>, base: nat, x: nat)
    requires (forall k :: 0 <= k < |rs| ==> InImage(rs[k], |image|)) && x < |image| && forall i :: 0 <= i < |rs| ==>
      !Touches(rs[i], x)
    ensures Relocated(image, rs, base)[x] == image[x]
  {
    if rs != [] {
      var rest := rs[..|rs| - 1];
      assert forall i :: 0 <= i < |rest| ==> rest[i] == rs[i];
      OtherByte(image, rest, base, x);
    }
  }

  /** The order of relocations with disjoint sites does not matter. */
  lemma {:induction false} AnyOrder(image: seq<Byte>, rs: seq<Reloc>, qs: seq<Reloc>, base: nat)
    requires (forall k :: 0 <= k < |rs| ==> InImage(rs[k], |image|))
      && (forall k :: 0 <= k < |qs| ==> InImage(qs[k], |image|))
    requires Disjoint(rs) && Disjoint(qs) && forall r :: r in rs <==> r in qs
    ensures Relocated(image, rs, base) == Relocated(image, qs, base)
  {
    forall x: nat | x < |image| ensures Relocated(image, rs, base)[x] == Relocated(image, qs, base)[x] {
      if i :| 0 <= i < |rs| && Touches(rs[i], x) {
        assert rs[i] in qs;
        var j :| 0 <= j < |qs| && qs[j] == rs[i];
        SiteByte(image, rs, base, i, x);
        SiteByte(image, qs, base, j, x);
      } else {
        forall j | 0 <= j < |qs| ensures !Touches(qs[j], x) {
          assert qs[j] in rs;
          var i :| 0 <= i < |rs| && rs[i] == qs[j];
        }
        OtherByte(image, rs, base, x);
        OtherByte(image, qs, base, x);
      }
    }
  }

  // ----- symbols -----

  /** A symbol: not defined here (with the kernel's address for its name, zero if it has
      none), absolute, or in a section. */
  datatype Symbol = Undefined(address: nat) | Absolute(value: nat) | InSection(index: nat, value: nat)

  /** `mod_resolve_sym` */
  function Resolve(s: Symbol, ss: seq<Section>, base: nat): Option<nat>
  {
    match s
    case Undefined(address) => if address == 0 then None else Some(address)
    case Absolute(value) => Some(value)
    case InSection(index, value) => if index >= |ss| then None else Some(base + ss[index].addr + value)
  }

  /** An entry of a relocation section; no symbol counts as value zero. */
  datatype Rela = Rela(offset: nat, kind: Kind, symbol: Option<Symbol>, addend: int)

  /** A relocation section, the section it is for, and whether the file has the symbol and
      string tables it names. */
  datatype RelaSection = RelaSection(target: nat, linked: bool, relas: seq<Rela>)

  /** The relocation that an entry stands for, if its symbol is found. */
  function Reading(e: Rela, target: Section, ss: seq<Section>, base: nat): Option<Reloc>
  {
    var v := if e.symbol.None? then Some(0) else Resolve(e.symbol.value, ss, base);
    if v.None? then None else Some(Reloc(target.addr + e.offset, e.kind, v.value, e.addend))
  }

  /** All relocations of the first n entries, unless a symbol is missing. */
  function ReadAll(es: seq<Rela>, n: nat, target: Section, ss: seq<Section>, base: nat): Option<seq<Reloc>>
    requires n <= |es|
  {
    if n == 0 then Some([])
    else
      var before, r := ReadAll(es, n - 1, target, ss, base), Reading(es[n - 1], target, ss, base);
      if before.None? || r.None? then None else Some(before.value + [r.value])
  }

  /** Relocation sections without their tables, or for sections that are not allocated, are
      passed over. */
  predicate Applies(rel: RelaSection, ss: seq<Section>) { rel.target < |ss| && rel.linked && ss[rel.target].alloc }

  function ReadSections(rels: seq<RelaSection>, n: nat, ss: seq<Section>, base: nat): Option<seq<Reloc>>
    requires n <= |rels|
  {
    if n == 0 then Some([])
    else
      var before := ReadSections(rels, n - 1, ss, base);
      if before.None? then None
      else if !Applies(rels[n - 1], ss) then before
      else
        var more := ReadAll(rels[n - 1].relas, |rels[n - 1].relas|, ss[rels[n - 1].target], ss, base);
        if more.None? then None else Some(before.value + more.value)
  }

  predicate EntryFits(e: Rela, target: Section, size: nat) { target.addr + e.offset + Width(e.kind) <= size }

  ghost predicate AllFit(rels: seq<RelaSection>, ss: seq<Section>, size: nat)
  {
    forall i, j {:trigger rels[i].relas[j]} :: 0 <= i < |rels| && Applies(rels[i], ss) && 0 <= j < |rels[i].relas| ==>
      EntryFits(rels[i].relas[j], ss[rels[i].target], size)
  }

  /** The third pass: all relocations are applied, in order, unless a symbol is missing. */
  method Relocate(image: array<Byte>, rels: seq<RelaSection>, ss: seq<Section>, base: nat) returns (ok: bool)
    requires AllFit(rels, ss, image.Length)
    modifies image
    ensures ok <==> ReadSections(rels, |rels|, ss, base).Some?
    ensures ok ==> Finished(old(image[..]), image[..], ReadSections(rels, |rels|, ss, base).value, base)
  {
    hide Finished, ReadAll, Relocated;
    ghost var before := image[..];
    NothingYet(before, base);
    for i := 0 to |rels|
      invariant ReadSections(rels, i, ss, base).Some?
        && Finished(before, image[..], ReadSections(rels, i, ss, base).value, base)
    {
      if Applies(rels[i], ss) {
        ghost var done := ReadSections(rels, i, ss, base).value;
        ok := RelocateSection(image, rels[i].relas, ss[rels[i].target], ss, base, before, done);
        if !ok {
          MissingStays(rels, i + 1, |rels|, ss, base);
          return;
        }
      }
    }
    ok := true;
  }

  method RelocateSection(image: array<Byte>, es: seq<Rela>, target: Section, ss: seq<Section>, base: nat,
      ghost before: seq<Byte>, ghost done: seq<Reloc>) returns (ok: bool)
    requires (forall j :: 0 <= j < |es| ==> EntryFits(es[j], target, image.Length))
      && Finished(before, image[..], done, base)
    modifies image
    ensures ok <==> ReadAll(es, |es|, target, ss, base).Some?
    ensures ok ==> Finished(before, image[..], done + ReadAll(es, |es|, target, ss, base).value, base)
  {
    hide Finished, Relocated;
    assert done + [] == done;
    for j := 0 to |es|
      invariant ReadAll(es, j, target, ss, base).Some?
        && Finished(before, image[..], done + ReadAll(es, j, target, ss, base).value, base)
    {
      var r := Reading(es[j], target, ss, base);
      if r.None? {
        MissingEntry(es, j + 1, |es|, target, ss, base);
        return false;
      }
      ghost var sofar, img := done + ReadAll(es, j, target, ss, base).value, image[..];
      ApplyRela(image, r.value, base);
      OneMore(before, img, image[..], sofar, r.value, base);
      assert sofar + [r.value] == done + (ReadAll(es, j, target, ss, base).value + [r.value]);
    }
    ok := true;
  }

  /** The image is the one before with the relocations applied, all of them inside it. */
  ghost predicate Finished(before: seq<Byte>, image: seq<Byte>, rs: seq<Reloc>, base: nat)
  {
    (forall i :: 0 <= i < |rs| ==> InImage(rs[i], |before|)) && image == Relocated(before, rs, base)
  }

  lemma {:induction false} NothingYet(image: seq<Byte>, base: nat)
    ensures Finished(image, image, [], base)
  {
  }

  lemma {:induction false} OneMore(before: seq<Byte>, image: seq<Byte>, image': seq<Byte>, rs: seq<Reloc>, r: Reloc,
      base: nat)
    requires Finished(before, image, rs, base) && InImage(r, |image|) && image' == Patched(image, r, base)
    ensures Finished(before, image', rs + [r], base)
  {
    var qs := rs + [r];
    assert qs[..|qs| - 1] == rs;
  }

  lemma {:induction false} MissingStays(rels: seq<RelaSection>, i: nat, n: nat, ss: seq<Section>, base: nat)
    requires i <= n <= |rels| && ReadSections(rels, i, ss, base).None?
    ensures ReadSections(rels, n, ss, base).None?
    decreases n - i
  {
    if i < n {
      MissingStays(rels, i + 1, n, ss, base);
    }
  }

  lemma {:induction false} MissingEntry(es: seq<Rela>, j: nat, n: nat, target: Section, ss: seq<Section>, base: nat)
    requires j <= n <= |es| && ReadAll(es, j, target, ss, base).None?
    ensures ReadAll(es, n, target, ss, base).None?
    decreases n - j
  {
    if j < n {
      MissingEntry(es, j + 1, n, target, ss, base);
    }
  }

  // ----- the whole of loading -----

  /** Every entry patches bytes of the section it is for. */
  ghost predicate Inside(rels: seq<RelaSection>, ss: seq<Section>)
  {
    forall i, j {:trigger rels[i].relas[j]} :: 0 <= i < |rels| && Applies(rels[i], ss) && 0 <= j < |rels[i].relas| ==>
      rels[i].relas[j].offset + Width(rels[i].relas[j].kind) <= ss[rels[i].target].size
  }

  lemma {:induction false} InsideFits(rels: seq<RelaSection>, before: seq<Section>, ss: seq<Section>, size: nat)
    requires OnlyPlaced(before, ss) && LaidOut(ss, |ss|, size) && Inside(rels, before)
    ensures AllFit(rels, ss, size)
  {
    forall i, j {:trigger rels[i].relas[j]} | 0 <= i < |rels| && Applies(rels[i], ss) && 0 <= j < |rels[i].relas|
      ensures EntryFits(rels[i].relas[j], ss[rels[i].target], size)
    {
      assert Applies(rels[i], before);
      assert End(ss[rels[i].target]) <= size;
    }
  }

  ghost function ImageOf(ss: seq<Section>, buf: seq<Byte>, size: nat): (s: seq<Byte>)
    requires AllInFile(ss, buf)
    ensures |s| == size
  {
    var f := (x: nat) => Loaded(ss, |ss|, buf, x);
    seq(size, f)
  }

  /** `elf_load_module` from the checked header on: base is where the image is allocated. */
  method LoadModule(sections: array<Section>, buf: seq<Byte>, rels: seq<RelaSection>, base: nat)
      returns (ok: bool, image: array<Byte>)
    requires AllInFile(sections[..], buf) && Inside(rels, sections[..])
    modifies sections
    ensures OnlyPlaced(old(sections[..]), sections[..]) && LaidOut(sections[..], sections.Length, image.Length)
    ensures Tight(sections[..], sections.Length) && image.Length == EndBefore(sections[..], sections.Length)
    ensures ok <==> image.Length > 0 && ReadSections(rels, |rels|, sections[..], base).Some?
    ensures ok ==>
      AllInFile(sections[..], buf)
      && Finished(ImageOf(sections[..], buf, image.Length), image[..],
      ReadSections(rels, |rels|, sections[..], base).value, base)
  {
    hide Finished, ReadSections, Inside, AllFit;
    ghost var before := sections[..];
    var size := Layout(sections);
    var ss := sections[..];
    InsideFits(rels, before, ss, size);
    image := CopySections(ss, buf, size);
    assert image[..] == ImageOf(ss, buf, size);
    if size == 0 {
      return false, image;
    }
    ok := Relocate(image, rels, ss, base);
  }

  // ----- what is at a site in the end -----

  /** Entry j is among the relocations read. */
  lemma {:induction false} EntryRead(es: seq<Rela>, n: nat, target: Section, ss: seq<Section>, base: nat, j: nat)
    requires n <= |es| && j < n && ReadAll(es, n, target, ss, base).Some?
    ensures Reading(es[j], target, ss, base).Some?
      && Reading(es[j], target, ss, base).value in ReadAll(es, n, target, ss, base).value
  {
    hide Reading;
    if j < n - 1 {
      EntryRead(es, n - 1, target, ss, base, j);
    }
  }

  lemma {:induction false} EntryReadIn(rels: seq<RelaSection>, n: nat, ss: seq<Section>, base: nat, i: nat, j: nat)
    requires n <= |rels| && i < n && Applies(rels[i], ss) && j < |rels[i].relas|
      && ReadSections(rels, n, ss, base).Some?
    ensures Reading(rels[i].relas[j], ss[rels[i].target], ss, base).Some?
      && Reading(rels[i].relas[j], ss[rels[i].target], ss, base).value in ReadSections(rels, n, ss, base).value
  {
    hide Reading, ReadAll;
    if i < n - 1 {
      EntryReadIn(rels, n - 1, ss, base, i, j);
    } else {
      EntryRead(rels[i].relas, |rels[i].relas|, ss[rels[i].target], ss, base, j);
    }
  }

  /** The bytes of a site are its field. */
  lemma {:induction false} SiteField(before: seq<Byte>, image: seq<Byte>, rs: seq<Reloc>, base: nat, r: Reloc)
    requires Finished(before, image, rs, base) && Disjoint(rs) && r in rs
    ensures InImage(r, |image|) && image[r.site..r.site + Width(r.kind)] == Field(r, base)
  {
    hide Field, Disjoint, Relocated;
    var i :| 0 <= i < |rs| && rs[i] == r;
    var part := image[r.site..r.site + Width(r.kind)];
    forall k: nat {:trigger part[k]} | k < |part| ensures part[k] == Field(r, base)[k] {
      SiteByte(before, rs, base, i, r.site + k);
    }
  }

  /** The number in the bytes of an entry's site. */
  function NumberAt(image: seq<Byte>, target: Section, e: Rela): nat
    requires target.addr + e.offset + Width(e.kind) <= |image|
  {
    LeGet(image[target.addr + e.offset..target.addr + e.offset + Width(e.kind)])
  }

  /** Where a symbol is once the module is loaded at base: one of a section is so far into
      it, one of the kernel at its own address; no symbol counts as zero. */
  ghost predicate LiesAt(s: Option<Symbol>, ss: seq<Section>, base: nat, v: nat)
  {
    match s
    case None => v == 0
    case Some(Undefined(address)) => v == address
    case Some(Absolute(value)) => v == value
    case Some(InSection(index, value)) => index < |ss| && v == base + (ss[index].addr + value)
  }

  /** In a loaded module whose sites are disjoint, every site holds the address of its symbol
      plus the addend, and in a relative field that less the address of the site. */
  lemma {:induction false} SiteHolds(before: seq<Byte>, image: seq<Byte>, rels: seq<RelaSection>, ss: seq<Section>,
      base: nat, i: nat, j: nat, v: nat)
    requires ReadSections(rels, |rels|, ss, base).Some?
    requires Finished(before, image, ReadSections(rels, |rels|, ss, base).value, base)
      && Disjoint(ReadSections(rels, |rels|, ss, base).value)
    requires i < |rels| && rels[i].linked && rels[i].target < |ss| && ss[rels[i].target].alloc && j < |rels[i].relas|
      && LiesAt(rels[i].relas[j].symbol, ss, base, v)
    ensures var e, target := rels[i].relas[j], ss[rels[i].target];
      && target.addr + e.offset + Width(e.kind) <= |image|
      && (e.kind.K64? ==> NumberAt(image, target, e) == (v + e.addend) % 0x1_0000_0000_0000_0000)
      && (e.kind.K32? || e.kind.K32S? ==> NumberAt(image, target, e) == (v + e.addend) % 0x1_0000_0000)
      && (e.kind.KPc32? || e.kind.KPlt32? ==>
           NumberAt(image, target, e) == (v + e.addend - (base + target.addr + e.offset)) % 0x1_0000_0000)
  {
    hide ReadSections, Finished, Disjoint, Field, LeGet;
    var e, target := rels[i].relas[j], ss[rels[i].target];
    EntryReadIn(rels, |rels|, ss, base, i, j);
    var r := Reading(e, target, ss, base).value;
    assert r == Reloc(target.addr + e.offset, e.kind, v, e.addend);
    SiteField(before, image, ReadSections(rels, |rels|, ss, base).value, base, r);
    FieldReads(r, base);
  }

  /** A module is refused exactly if it is empty or a symbol that it needs is nowhere. */
  predicate Missing(s: Option<Symbol>, ss: seq<Section>)
  {
    match s
    case None => false
    case Some(Undefined(address)) => address == 0
    case Some(Absolute(value)) => false
    case Some(InSection(index, value)) => index >= |ss|
  }

  lemma {:induction false} AllFound(es: seq<Rela>, n: nat, target: Section, ss: seq<Section>, base: nat)
    requires n <= |es|
    ensures ReadAll(es, n, target, ss, base).Some? <==> forall j :: 0 <= j < n ==> !Missing(es[j].symbol, ss)
  {
    if n > 0 {
      AllFound(es, n - 1, target, ss, base);
    }
  }

  lemma {:induction false} NothingMissing(rels: seq<RelaSection>, n: nat, ss: seq<Section>, base: nat)
    requires n <= |rels|
    ensures ReadSections(rels, n, ss, base).Some? <==> forall i, j {:trigger rels[i].relas[j]} ::
      0 <= i < n && rels[i].linked && rels[i].target < |ss| && ss[rels[i].target].alloc && 0 <= j < |rels[i].relas| ==>
        !Missing(rels[i].relas[j].symbol, ss)
  {
    hide Missing, ReadAll;
    if n > 0 {
      NothingMissing(rels, n - 1, ss, base);
      if Applies(rels[n - 1], ss) {
        AllFound(rels[n - 1].relas, |rels[n - 1].relas|, ss[rels[n - 1].target], ss, base);
      }
    }
  }
}
