/** Loading the segments of an executable page by page. */
module ElfSegments {
  import opened LittleEndian

  const PAGE: nat := 4096

  type Page = p: seq<Byte> | |p| == 4096 witness seq(4096, i => 0)

  function ZeroPage(): (p: Page) { seq(4096, i => 0) }

  /** A program header of type PT_LOAD, with its load address. */
  datatype Segment = Segment(vaddr: nat, memsz: nat, filesz: nat, offset: nat)

  function FirstPage(s: Segment): nat { s.vaddr / 4096 }

  function InPage(s: Segment): nat { s.vaddr % 4096 }

  function PageCount(s: Segment): nat { (s.memsz + InPage(s) + 4095) / 4096 }

  predicate Covers(s: Segment, page: nat) { FirstPage(s) <= page < FirstPage(s) + PageCount(s) }

  /** A file, and whether a page is left zero when the file ends inside it: so for a file in
      memory, while reads from the file system give the bytes that there are. */
  datatype Source = Source(bytes: seq<Byte>, whole: bool)

  /** The file holds all bytes of the segment. */
  predicate InFile(s: Segment, file: Source) { s.offset + s.filesz <= |file.bytes| }

  /** Where the bytes of the file end that go to the page of address x. */
  function ChunkEnd(s: Segment, x: nat): nat
  {
    if s.vaddr + s.filesz <= 4096 * (x / 4096) + 4096 then s.vaddr + s.filesz else 4096 * (x / 4096) + 4096
  }

  /** The byte of a segment at address x is in the file. */
  predicate There(s: Segment, file: Source, x: nat)
  {
    s.vaddr <= x < s.vaddr + s.filesz
      && s.offset + (if file.whole then ChunkEnd(s, x) - s.vaddr else x + 1 - s.vaddr) <= |file.bytes|
  }

  /** The flat meaning of a segment: the byte at address x. */
  function ByteAt(s: Segment, file: Source, x: nat): Byte
  {
    if There(s, file, x) && s.offset + (x - s.vaddr) < |file.bytes| then file.bytes[s.offset + (x - s.vaddr)] else 0
  }

  /** For a file that is all there: the file's bytes, then zeros. */
  lemma {:induction false} FlatByte(s: Segment, file: Source, i: nat)
    requires InFile(s, file)
    ensures ByteAt(s, file, s.vaddr + i) == if i < s.filesz then file.bytes[s.offset + i] else 0
  {
  }

  /** How many of the n bytes from offset o on are copied. */
  function Copied(file: Source, o: nat, n: nat): (r: nat)
    ensures r <= n && (r > 0 ==> o + r <= |file.bytes|)
  {
    if o + n <= |file.bytes| then n else if file.whole || o >= |file.bytes| then 0 else |file.bytes| - o
  }

  function ImageFrom(s: Segment, file: Source, x: nat): (p: seq<Byte>)
    ensures |p| == 4096
  {
    seq<Byte>(4096, (k: nat) => ByteAt(s, file, x + k))
  }

  /** The page that a segment makes. */
  function Image(s: Segment, file: Source, page: nat): (p: Page)
  {
    ImageFrom(s, file, 4096 * page)
  }

  /** Every byte that a segment has in memory lies in a page it covers. */
  lemma {:induction false} PagesCover(s: Segment, i: nat)
    requires i < s.memsz
    ensures Covers(s, (s.vaddr + i) / 4096)
  {
    var x := s.vaddr + i;
    assert s.vaddr == 4096 * FirstPage(s) + InPage(s);
    assert x / 4096 < FirstPage(s) + PageCount(s);
  }

  /** The pages of a segment are those from its first byte's to its last byte's. */
  lemma {:induction false} PagesExact(s: Segment, page: nat)
    ensures Covers(s, page) <==> s.vaddr < 4096 * page + 4096 && 4096 * page < s.vaddr + s.memsz
  {
    var n := s.memsz + InPage(s);
    assert s.vaddr == 4096 * FirstPage(s) + InPage(s);
    assert 4096 * ((n + 4095) / 4096) >= n && 4096 * ((n + 4095) / 4096) < n + 4096;
  }

  class AddressSpace {
    /** Pages by number. Every page is mapped to a fresh frame of its own. */
    var pages: map<nat, Page>

    constructor ()
      ensures pages == map[]
    {
      pages := map[];
    }

    /** One page of `map_segment`: a zeroed frame with the file's bytes copied in. */
    method LoadPage(s: Segment, file: Source, p: nat)
      requires p < PageCount(s)
      modifies this
      ensures pages == old(pages)[FirstPage(s) + p := Image(s, file, FirstPage(s) + p)]
    {
      var dest := ZeroPage();
      var copyOff := if p == 0 then InPage(s) else 0;
      var copyLen := PAGE - copyOff;
      var inSegment := if p == 0 then 0 else p * 4096 - InPage(s);
      if inSegment < s.filesz {
        var rem := s.filesz - inSegment;
        var n := Copied(file, s.offset + inSegment, if rem > copyLen then copyLen else rem);
        if n > 0 {
          dest := dest[..copyOff] + file.bytes[s.offset + inSegment..s.offset + inSegment + n] + dest[copyOff + n..];
        }
      }
      PageIsImage(s, file, p, dest);
      pages := pages[FirstPage(s) + p := dest];
    }

    /** `map_segment`: loading by pages is the flat image, for any offset in the page. */
    method LoadSegment(s: Segment, file: Source)
      modifies this
      ensures forall q {:trigger q in pages} :: q in pages <==> q in old(pages) || Covers(s, q)
      ensures forall q {:trigger pages[q]} :: q in pages ==> pages[q] == if Covers(s, q) then Image(s, file, q)
        else old(pages)[q]
    {
      hide Image;
      for p := 0 to PageCount(s)
        invariant forall q {:trigger q in pages} :: q in pages <==>
          q in old(pages) || FirstPage(s) <= q < FirstPage(s) + p
        invariant forall q {:trigger pages[q]} :: q in pages ==>
          pages[q] == if FirstPage(s) <= q < FirstPage(s) + p then Image(s, file, q) else old(pages)[q]
      {
        LoadPage(s, file, p);
      }
    }

    /** The loop of `elf64_load_path` over all segments: every page shows the last segment
        that covers it. */
    method LoadAll(ss: seq<Segment>, file: Source)
      modifies this
      ensures Shows(ss, file, old(pages), pages)
    {
      hide Image, Covers, Shows;
      assert ss[..0] == [];
      ShowsNone(file, pages);
      for i := 0 to |ss|
        invariant Shows(ss[..i], file, old(pages), pages)
      {
        ghost var before := pages;
        LoadSegment(ss[i], file);
        ShowsNext(ss, i, file, old(pages), before, pages);
      }
      assert ss[..|ss|] == ss;
    }
  }

  /** Pages covered by a segment show the last one that does; all others are as before. */
  ghost predicate Shows(ss: seq<Segment>, file: Source, before: map<nat, Page>, pages: map<nat, Page>)
  {
    && (forall q {:trigger q in pages} {:trigger LastCover(ss, q)} :: q in pages <==>
         q in before || LastCover(ss, q) >= 0)
    && (forall q {:trigger pages[q]} :: q in pages ==>
         pages[q] == if LastCover(ss, q) >= 0 then Image(ss[LastCover(ss, q)], file, q) else before[q])
  }

  lemma {:induction false} ShowsNone(file: Source, pages: map<nat, Page>)
    ensures Shows([], file, pages, pages)
  {
  }

  lemma {:induction false} ShowsNext(ss: seq<Segment>, i: nat, file: Source, before: map<nat, Page>, pages: map<nat,
      Page>, pages': map<nat, Page>)
    requires i < |ss| && Shows(ss[..i], file, before, pages)
    requires forall q {:trigger q in pages'} :: q in pages' <==> q in pages || Covers(ss[i], q)
    requires forall q {:trigger pages'[q]} :: q in pages' ==>
      pages'[q] == if Covers(ss[i], q) then Image(ss[i], file, q) else pages[q]
    ensures Shows(ss[..i + 1], file, before, pages')
  {
    hide Image, Covers;
    var longer := ss[..i + 1];
    forall q: nat {:trigger LastCover(longer, q)}
      ensures LastCover(longer, q) == if Covers(ss[i], q) then i else LastCover(ss[..i], q) {
      assert longer[..i] == ss[..i];
    }
  }

  /** The last segment that covers a page, or -1. */
  function LastCover(ss: seq<Segment>, q: nat): (i: int)
    ensures -1 <= i < |ss| && (i >= 0 ==> Covers(ss[i], q)) && forall j :: i < j < |ss| ==> !Covers(ss[j], q)
  {
    if ss == [] then -1
    else if Covers(ss[|ss| - 1], q) then |ss| - 1
    else LastCover(ss[..|ss| - 1], q)
  }

  lemma {:induction false} PageIsImage(s: Segment, file: Source, p: nat, dest: Page)
    requires p < PageCount(s)
    requires var copyOff, inSegment := (if p == 0 then InPage(s) else 0), (if p == 0 then 0 else p * 4096 - InPage(s));
      var n := if inSegment < s.filesz
        then Copied(file, s.offset + inSegment, if s.filesz - inSegment > 4096 - copyOff then 4096 - copyOff
        else s.filesz - inSegment) else 0;
      dest == if n > 0 then ZeroPage()[..copyOff] + file.bytes[s.offset + inSegment..s.offset + inSegment + n]
        + ZeroPage()[copyOff + n..] else ZeroPage()
    ensures dest == Image(s, file, FirstPage(s) + p)
  {
    hide ByteAt, Copied, FirstPage, PageCount;
    var page := FirstPage(s) + p;
    forall k: nat {:trigger dest[k]} | k < 4096 ensures dest[k] == Image(s, file, page)[k] {
      assert Image(s, file, page)[k] == ByteAt(s, file, 4096 * page + k);
      PageByte(s, file, p, k);
    }
  }

  /** Which byte of the file, if any, is copied to byte k of page p. */
  lemma {:induction false} PageByte(s: Segment, file: Source, p: nat, k: nat)
    requires k < 4096
    ensures var copyOff, inSegment := (if p == 0 then InPage(s) else 0), (if p == 0 then 0 else p * 4096 - InPage(s));
      var n := if inSegment < s.filesz
        then Copied(file, s.offset + inSegment, if s.filesz - inSegment > 4096 - copyOff then 4096 - copyOff
        else s.filesz - inSegment) else 0;
      ByteAt(s, file, 4096 * (FirstPage(s) + p) + k) == if copyOff <= k < copyOff + n
        then file.bytes[s.offset + inSegment + (k - copyOff)] else 0
  {
    var page := FirstPage(s) + p;
    assert s.vaddr == 4096 * FirstPage(s) + InPage(s);
    assert (4096 * page + k) / 4096 == page;
  }

  /** With no two segments on one page, every byte of every segment is where the flat
      meaning puts it. */
  lemma {:induction false} SegmentsRead(ss: seq<Segment>, file: Source, before: map<nat, Page>, pages: map<nat, Page>,
      i: nat, b: nat)
    requires Shows(ss, file, before, pages) && i < |ss| && b < ss[i].memsz
    requires forall j, q :: 0 <= j < |ss| && j != i && Covers(ss[j], q) ==> !Covers(ss[i], q)
    ensures var x := ss[i].vaddr + b;
      x / 4096 in pages && pages[x / 4096][x % 4096] == ByteAt(ss[i], file, x)
      && (InFile(ss[i], file) ==> pages[x / 4096][x % 4096] == if b < ss[i].filesz then file.bytes[ss[i].offset + b]
           else 0)
  {
    hide ByteAt, Shows;
    var x := ss[i].vaddr + b;
    if InFile(ss[i], file) {
      FlatByte(ss[i], file, b);
    }
    PagesCover(ss[i], b);
    assert LastCover(ss, x / 4096) == i;
    LastShown(ss, file, before, pages, x);
  }

  /** In general a byte is what the last segment on its page has there: where segments
      share a page, the bytes of the earlier ones are lost. */
  lemma {:induction false} LastShown(ss: seq<Segment>, file: Source, before: map<nat, Page>, pages: map<nat, Page>,
      x: nat)
    requires Shows(ss, file, before, pages) && LastCover(ss, x / 4096) >= 0
    ensures x / 4096 in pages && pages[x / 4096][x % 4096] == ByteAt(ss[LastCover(ss, x / 4096)], file, x)
  {
    hide Image, ByteAt, Covers;
    ImageByte(ss[LastCover(ss, x / 4096)], file, x);
  }

  lemma {:induction false} ImageByte(s: Segment, file: Source, x: nat)
    ensures Image(s, file, x / 4096)[x % 4096] == ByteAt(s, file, x)
  {
    hide ByteAt;
    assert 4096 * (x / 4096) + x % 4096 == x;
  }

  /** The byte that is loaded at address x. */
  function Loaded(pages: map<nat, Page>, x: nat): (b: int)
  {
    if x / 4096 in pages then pages[x / 4096][x % 4096] else -1
  }

  /** Every byte of a segment is loaded as its flat meaning says. */
  ghost predicate Intact(s: Segment, file: Source, pages: map<nat, Page>)
  {
    forall x: nat {:trigger ByteAt(s, file, x)} :: s.vaddr <= x < s.vaddr + s.memsz ==>
      Loaded(pages, x) == ByteAt(s, file, x)
  }

  /** Segment j is the last one on the page of address x. */
  predicate LastOn(ss: seq<Segment>, j: nat, x: nat)
  {
    j < |ss| && Covers(ss[j], x / 4096) && forall k :: j < k < |ss| ==> !Covers(ss[k], x / 4096)
  }

  /** The byte that the program header and the file give for address x. */
  function HeaderByte(s: Segment, file: Source, x: nat): Byte
    requires InFile(s, file)
  {
    if s.vaddr <= x < s.vaddr + s.filesz then file.bytes[s.offset + (x - s.vaddr)] else 0
  }

  /** On every page of segment i, the last segment there has the same bytes in i's range. */
  ghost predicate Agreed(ss: seq<Segment>, file: Source, i: nat)
    requires i < |ss|
  {
    forall j: nat, x: nat {:trigger LastOn(ss, j, x)} ::
      i < j < |ss| && ss[i].vaddr <= x < ss[i].vaddr + ss[i].memsz && LastOn(ss, j, x) ==>
        ByteAt(ss[j], file, x) == ByteAt(ss[i], file, x)
  }

  /** The same, of files that hold their segments, from the headers and the file alone. */
  ghost predicate HeadersAgree(ss: seq<Segment>, file: Source, i: nat)
    requires i < |ss| && forall j :: 0 <= j < |ss| ==> InFile(ss[j], file)
  {
    forall j: nat, x: nat {:trigger LastOn(ss, j, x)} ::
      i < j < |ss| && ss[i].vaddr <= x < ss[i].vaddr + ss[i].memsz && LastOn(ss, j, x) ==>
        HeaderByte(ss[j], file, x) == HeaderByte(ss[i], file, x)
  }

  lemma {:induction false} ByteInFile(s: Segment, file: Source, x: nat)
    requires InFile(s, file)
    ensures ByteAt(s, file, x) == HeaderByte(s, file, x)
  {
  }

  lemma {:induction false} LastOnCover(ss: seq<Segment>, i: nat, x: nat)
    requires i < |ss| && ss[i].vaddr <= x < ss[i].vaddr + ss[i].memsz
    ensures i <= LastCover(ss, x / 4096) && LastOn(ss, LastCover(ss, x / 4096), x)
    ensures forall j {:trigger LastOn(ss, j, x)} :: LastOn(ss, j, x) ==> j == LastCover(ss, x / 4096)
  {
    PagesCover(ss[i], x - ss[i].vaddr);
  }

  /** A segment is loaded intact exactly if the last segments on its pages agree with it. */
  lemma {:induction false} IntactExact(ss: seq<Segment>, file: Source, before: map<nat, Page>, pages: map<nat, Page>,
      i: nat)
    requires Shows(ss, file, before, pages) && i < |ss|
    ensures Intact(ss[i], file, pages) <==> Agreed(ss, file, i)
  {
    hide Shows, LastOn, ByteAt, LastCover, Loaded;
    forall x: nat | ss[i].vaddr <= x < ss[i].vaddr + ss[i].memsz
      ensures LastOn(ss, LastCover(ss, x / 4096), x) && i <= LastCover(ss, x / 4096) < |ss|
      ensures Loaded(pages, x) == ByteAt(ss[LastCover(ss, x / 4096)], file, x)
      ensures forall j {:trigger LastOn(ss, j, x)} :: LastOn(ss, j, x) ==> j == LastCover(ss, x / 4096)
    {
      LastOnCover(ss, i, x);
      LoadedLast(ss, file, before, pages, x);
    }
  }

  lemma {:induction false} LoadedLast(ss: seq<Segment>, file: Source, before: map<nat, Page>, pages: map<nat, Page>,
      x: nat)
    requires Shows(ss, file, before, pages) && LastCover(ss, x / 4096) >= 0
    ensures Loaded(pages, x) == ByteAt(ss[LastCover(ss, x / 4096)], file, x)
  {
    hide Shows, ByteAt, Covers;
    LastShown(ss, file, before, pages, x);
  }

  /** The same condition on the headers and the bytes of the file. */
  lemma {:induction false} IntactByHeaders(ss: seq<Segment>, file: Source, before: map<nat, Page>, pages: map<nat,
      Page>, i: nat)
    requires Shows(ss, file, before, pages) && i < |ss| && forall j :: 0 <= j < |ss| ==> InFile(ss[j], file)
    ensures Intact(ss[i], file, pages) <==> HeadersAgree(ss, file, i)
  {
    hide Shows, LastOn, ByteAt, HeaderByte, Intact;
    IntactExact(ss, file, before, pages, i);
    forall j: nat, x: nat | j < |ss| ensures ByteAt(ss[j], file, x) == HeaderByte(ss[j], file, x) {
      ByteInFile(ss[j], file, x);
    }
  }

  /** Two segments of one byte each on one page: the first is lost. */
  method SharedPage() returns (space: AddressSpace)
    ensures fresh(space) && 0x400 in space.pages && space.pages[0x400][0] == 0 && space.pages[0x400][0x10] == 9
    ensures !Intact(Segment(0x40_0000, 1, 1, 0), Source([7, 9], true), space.pages)
  {
    var file := Source([7, 9], true);
    var ss := [Segment(0x40_0000, 1, 1, 0), Segment(0x40_0010, 1, 1, 1)];
    space := new AddressSpace();
    space.LoadAll(ss, file);
    assert Covers(ss[1], 0x400);
    assert LastCover(ss, 0x400) == 1;
    LastShown(ss, file, map[], space.pages, 0x40_0000);
    LastShown(ss, file, map[], space.pages, 0x40_0010);
    assert Loaded(space.pages, 0x40_0000) != ByteAt(ss[0], file, 0x40_0000);
  }

  // ----- the load base -----

  const LOW: nat := 0x40_0000

  /** The lowest address among the segments of a fixed executable. */
  method LowestAddress(ss: seq<Segment>) returns (low: nat)
    requires forall i :: 0 <= i < |ss| ==> ss[i].vaddr <= MAX_ADDRESS
    ensures low <= MAX_ADDRESS && forall i :: 0 <= i < |ss| ==> low <= ss[i].vaddr
    ensures low < MAX_ADDRESS ==> exists i :: 0 <= i < |ss| && ss[i].vaddr == low
  {
    low := MAX_ADDRESS;
    for i := 0 to |ss|
      invariant low <= MAX_ADDRESS && forall j :: 0 <= j < i ==> low <= ss[j].vaddr
      invariant low < MAX_ADDRESS ==> exists j :: 0 <= j < i && ss[j].vaddr == low
    {
      if ss[i].vaddr < low {
        low := ss[i].vaddr;
      }
    }
  }

  const MAX_ADDRESS: nat := 0xFFFF_FFFF_FFFF_FFFF

  /** The load base of `elf64_load_path`: no segment ends up below 0x400000. */
  method LoadBase(ss: seq<Segment>, dynamic: bool) returns (base: nat)
    requires forall i :: 0 <= i < |ss| ==> ss[i].vaddr <= MAX_ADDRESS
    ensures dynamic ==> base == LOW
    ensures forall i :: 0 <= i < |ss| ==> ss[i].vaddr + base >= LOW
    ensures !dynamic && (forall i :: 0 <= i < |ss| ==> ss[i].vaddr >= LOW) ==> base == 0
  {
    if dynamic {
      return LOW;
    }
    var low := LowestAddress(ss);
    base := if low < LOW then LOW - low else 0;
  }
}
