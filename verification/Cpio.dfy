/** Unpacking the initial RAM disk: a newc CPIO archive becomes calls to the file system. */
module Cpio {
  import opened LittleEndian

  /** A byte of the archive; memory after it reads as zero. */
  function At(a: seq<Byte>, i: nat): Byte { if i < |a| then a[i] else 0 }

  function Bytes(a: seq<Byte>, i: nat, n: nat): (s: seq<Byte>)
    ensures |s| == n
  {
    seq<Byte>(n, (k: nat) => At(a, i + k))
  }

  // ----- numbers and alignment -----

  /** The value of a hexadecimal digit; other bytes count as zero. */
  function Nibble(c: Byte): (d: nat)
    ensures d < 16
  {
    if 0x30 <= c <= 0x39 then c - 0x30
    else if 0x61 <= c <= 0x66 then c - 0x61 + 10
    else if 0x41 <= c <= 0x46 then c - 0x41 + 10
    else 0
  }

  function HexValue(s: seq<Byte>): nat
  {
    if s == [] then 0 else 16 * HexValue(s[..|s| - 1]) + Nibble(s[|s| - 1])
  }

  /** `hex8_to_u32` */
  method Hex8(a: seq<Byte>, off: nat) returns (v: nat)
    ensures v == HexValue(Bytes(a, off, 8))
  {
    ghost var s := Bytes(a, off, 8);
    v := 0;
    assert s[..0] == [];
    for i := 0 to 8
      invariant v == HexValue(s[..i])
    {
      assert s[..i + 1][..i] == s[..i] && s[..i + 1][i] == At(a, off + i);
      v := 16 * v + Nibble(At(a, off + i));
    }
    assert s[..8] == s;
  }

  function HexDigit(d: nat): Byte
    requires d < 16
  {
    if d < 10 then 0x30 + d else 0x41 + d - 10
  }

  /** n hexadecimal digits. */
  function Hex(v: nat, n: nat): (s: seq<Byte>)
    ensures |s| == n
  {
    if n == 0 then [] else Hex(v / 16, n - 1) + [HexDigit(v % 16)]
  }

  predicate FitsHex(v: nat, n: nat)
  {
    if n == 0 then v == 0 else FitsHex(v / 16, n - 1)
  }

  lemma {:induction false} HexRoundTrip(v: nat, n: nat)
    requires FitsHex(v, n)
    ensures HexValue(Hex(v, n)) == v
  {
    if n > 0 {
      HexRoundTrip(v / 16, n - 1);
      assert Hex(v, n)[..n - 1] == Hex(v / 16, n - 1);
    }
  }

  lemma {:induction false} FitsEight(v: nat)
    requires v < 0x1_0000_0000
    ensures FitsHex(v, 8)
  {
    var w := v / 16 / 16 / 16 / 16;
    assert v / 16 < 0x1000_0000 && v / 16 / 16 < 0x100_0000 && v / 16 / 16 / 16 < 0x10_0000 && w < 0x1_0000;
    assert w / 16 < 0x1000 && w / 16 / 16 < 0x100 && w / 16 / 16 / 16 < 0x10;
    assert FitsHex(w / 16 / 16 / 16 / 16, 0);
    assert FitsHex(w / 16 / 16 / 16, 1);
    assert FitsHex(w / 16 / 16, 2);
    assert FitsHex(w / 16, 3);
    assert FitsHex(w, 4);
    assert FitsHex(v / 16 / 16 / 16, 5);
    assert FitsHex(v / 16 / 16, 6);
    assert FitsHex(v / 16, 7);
  }

  /** `align4` of the address of offset p in an archive at base. */
  function Align4(base: nat, p: nat): (q: nat)
    ensures p <= q < p + 4 && (base + q) % 4 == 0
  {
    (base + p + 3) / 4 * 4 - base
  }

  // ----- paths -----

  const SLASH: Byte := 0x2F
  const DOT: Byte := 0x2E

  /** The bytes from p on, without leading slashes, up to a zero or to n bytes. */
  function CString(a: seq<Byte>, p: nat, n: nat): (s: seq<Byte>)
    decreases n
  {
    if n == 0 || At(a, p) == 0 then [] else [At(a, p)] + CString(a, p + 1, n - 1)
  }

  function SkipSlashes(a: seq<Byte>, p: nat): (q: nat)
    ensures p <= q
    decreases |a| - p
  {
    if p < |a| && a[p] == SLASH then SkipSlashes(a, p + 1) else p
  }

  /** `normalize_path` into a buffer of 256 bytes. */
  function PathAt(a: seq<Byte>, p: nat): (s: seq<Byte>)
  {
    var s := CString(a, SkipSlashes(a, p), 255);
    if s == [] then [DOT] else s
  }

  method NormalizePath(a: seq<Byte>, p: nat) returns (dst: seq<Byte>)
    ensures dst == PathAt(a, p)
  {
    hide CString, SkipSlashes;
    var src := SkipLeading(a, p);
    dst := CopyString(a, src);
    if dst == [] {
      dst := [DOT];
    }
  }

  method SkipLeading(a: seq<Byte>, p: nat) returns (src: nat)
    ensures src == SkipSlashes(a, p)
  {
    src := p;
    while At(a, src) == SLASH
      invariant SkipSlashes(a, p) == SkipSlashes(a, src)
      decreases |a| - src
    {
      src := src + 1;
    }
  }

  method CopyString(a: seq<Byte>, start: nat) returns (dst: seq<Byte>)
    ensures dst == CString(a, start, 255)
  {
    hide CString;
    var src := start;
    dst := [];
    while At(a, src) != 0 && |dst| + 1 < 256
      invariant |dst| <= 255 && src == start + |dst| && CString(a, start, 255) == dst + CString(a, src, 255 - |dst|)
      decreases 255 - |dst|
    {
      NextChar(a, src, 255 - |dst|, dst);
      dst := dst + [At(a, src)];
      src := src + 1;
    }
    LastChar(a, src, 255 - |dst|);
  }

  lemma {:induction false} NextChar(a: seq<Byte>, p: nat, n: nat, before: seq<Byte>)
    requires n > 0 && At(a, p) != 0
    ensures before + CString(a, p, n) == before + [At(a, p)] + CString(a, p + 1, n - 1)
  {
  }

  lemma {:induction false} LastChar(a: seq<Byte>, p: nat, n: nat)
    requires n == 0 || At(a, p) == 0
    ensures CString(a, p, n) == []
  {
  }

  // ----- unpacking -----

  datatype Call = Create(path: seq<Byte>) | Write(path: seq<Byte>, data: seq<Byte>) | Mkdir(path: seq<Byte>)

  const HEADER: nat := 110

  /** "070701" */
  const MAGIC: seq<Byte> := [0x30, 0x37, 0x30, 0x37, 0x30, 0x31]

  /** "TRAILER!!!" */
  const TRAILER: seq<Byte> := [0x54, 0x52, 0x41, 0x49, 0x4C, 0x45, 0x52, 0x21, 0x21, 0x21]

  /** The calls for one entry, where ok says which paths can be created. */
  function CallsFor(path: seq<Byte>, mode: nat, data: seq<Byte>, ok: seq<Byte> -> bool): seq<Call>
  {
    if path == [DOT] then []
    else if mode / 0x1000 % 16 == 8 then [Create(path)] + (if ok(path) && data != [] then [Write(path, data)] else [])
    else if mode / 0x1000 % 16 == 4 then [Mkdir(path)]
    else []
  }

  /** What is at offset p: the fields of a header, if one is there. */
  datatype Head = Head(name: nat, size: nat, mode: nat)

  function HeadAt(a: seq<Byte>, p: nat): Head
  {
    Head(HexValue(Bytes(a, p + 94, 8)), HexValue(Bytes(a, p + 54, 8)), HexValue(Bytes(a, p + 14, 8)))
  }

  /** An entry with its name and data starts at p. */
  predicate Readable(a: seq<Byte>, base: nat, p: nat)
  {
    && p + HEADER <= |a| && Bytes(a, p, 6) == MAGIC
    && var h := HeadAt(a, p);
       && h.name != 0 && p + HEADER + h.name <= |a| && Bytes(a, p + HEADER, 10) != TRAILER
       && Align4(base, p + HEADER + h.name) + h.size <= |a|
  }

  function DataAt(base: nat, p: nat, h: Head): nat { Align4(base, p + HEADER + h.name) }

  function NextAt(base: nat, p: nat, h: Head): (q: nat)
    ensures p < q
  {
    Align4(base, DataAt(base, p, h) + h.size)
  }

  /** All calls from offset p on. */
  function CallsFrom(a: seq<Byte>, base: nat, p: nat, ok: seq<Byte> -> bool): seq<Call>
    decreases |a| - p
  {
    if !Readable(a, base, p) then []
    else
      var h := HeadAt(a, p);
      CallsFor(PathAt(a, p + HEADER), h.mode, Bytes(a, DataAt(base, p, h), h.size), ok)
        + CallsFrom(a, base, NextAt(base, p, h), ok)
  }

  /** `unpack_cpio`: for any archive the loop ends, since the offset only grows. */
  method Unpack(a: seq<Byte>, base: nat, ok: seq<Byte> -> bool) returns (calls: seq<Call>)
    ensures calls == CallsFrom(a, base, 0, ok)
  {
    hide CallsFrom, CallsFor, HexValue, Bytes, PathAt;
    var p := 0;
    calls := [];
    while p + HEADER <= |a|
      invariant calls + CallsFrom(a, base, p, ok) == CallsFrom(a, base, 0, ok)
      decreases |a| - p
    {
      if Bytes(a, p, 6) != MAGIC {
        break;
      }
      var name := Hex8(a, p + 94);
      var size := Hex8(a, p + 54);
      var mode := Hex8(a, p + 14);
      if name == 0 || p + HEADER + name > |a| {
        break;
      }
      if Bytes(a, p + HEADER, 10) == TRAILER {
        break;
      }
      var data := Align4(base, p + HEADER + name);
      if data + size > |a| {
        break;
      }
      var path := NormalizePath(a, p + HEADER);
      var more := Perform(path, mode, Bytes(a, data, size), ok);
      OneMember(a, base, p, ok, calls);
      calls := calls + more;
      p := Align4(base, data + size);
    }
    Stops(a, base, p, ok);
  }

  lemma {:induction false} OneMember(a: seq<Byte>, base: nat, p: nat, ok: seq<Byte> -> bool, before: seq<Call>)
    requires Readable(a, base, p)
    ensures var h := HeadAt(a, p);
      before + CallsFrom(a, base, p, ok) == before
        + CallsFor(PathAt(a, p + HEADER), h.mode, Bytes(a, DataAt(base, p, h), h.size), ok)
        + CallsFrom(a, base, NextAt(base, p, h), ok)
  {
    hide CallsFor, PathAt, Bytes, HexValue;
  }

  lemma {:induction false} Stops(a: seq<Byte>, base: nat, p: nat, ok: seq<Byte> -> bool)
    requires !Readable(a, base, p)
    ensures CallsFrom(a, base, p, ok) == []
  {
  }

  /** The calls to the file system for one entry. */
  method Perform(path: seq<Byte>, mode: nat, data: seq<Byte>, ok: seq<Byte> -> bool) returns (calls: seq<Call>)
    ensures calls == CallsFor(path, mode, data, ok)
  {
    calls := [];
    if path == [DOT] {
      return;
    }
    var kind := mode / 0x1000 % 16;
    if kind == 8 {
      calls := [Create(path)];
      if ok(path) && |data| > 0 {
        calls := calls + [Write(path, data)];
      }
    } else if kind == 4 {
      calls := [Mkdir(path)];
    }
  }

  // ----- the newc format -----

  /** An archive member: its name, mode and data, and the header fields that do not matter
      here. */
  datatype Member = Member(name: seq<Byte>, mode: nat, data: seq<Byte>, ino: nat, uid: nat, gid: nat, nlink: nat,
    mtime: nat,
                           devMajor: nat, devMinor: nat, rdevMajor: nat, rdevMinor: nat, check: nat)

  function HeaderFields(m: Member): (f: seq<nat>)
    ensures |f| == 13
  {
    [m.ino, m.mode, m.uid, m.gid, m.nlink, m.mtime, |m.data|, m.devMajor, m.devMinor, m.rdevMajor, m.rdevMinor,
      |m.name| + 1, m.check]
  }

  function HexAll(f: seq<nat>): (s: seq<Byte>)
    ensures |s| == 8 * |f|
  {
    if f == [] then [] else HexAll(f[..|f| - 1]) + Hex(f[|f| - 1], 8)
  }

  function Zeros(n: nat): (s: seq<Byte>)
    ensures |s| == n
  {
    seq(n, i => 0)
  }

  /** Padding to a multiple of four. */
  function Pad(n: nat): nat { (4 - n % 4) % 4 }

  function Encode(m: Member): (s: seq<Byte>)
    ensures |s| % 4 == 0
  {
    var head := MAGIC + HexAll(HeaderFields(m)) + m.name + [0] + Zeros(Pad(HEADER + |m.name| + 1));
    PadsToFour(HEADER + |m.name| + 1, |m.data|);
    head + m.data + Zeros(Pad(|m.data|))
  }

  lemma {:induction false} PadsToFour(n: nat, k: nat)
    ensures (n + Pad(n)) % 4 == 0 && (n + Pad(n) + k + Pad(k)) % 4 == 0
  {
  }

  function EncodeAll(ms: seq<Member>): seq<Byte>
  {
    if ms == [] then [] else Encode(ms[0]) + EncodeAll(ms[1..])
  }

  /** Names without a zero; all header fields fit. */
  predicate Proper(m: Member)
  {
    && (forall i :: 0 <= i < |m.name| ==> m.name[i] != 0)
    && |m.data| < 0x1_0000_0000 && (forall i :: 0 <= i < 13 ==> HeaderFields(m)[i] < 0x1_0000_0000)
  }

  /** What the code takes for the trailer: its comparison is of ten bytes only. */
  predicate Ending(m: Member) { TRAILER <= m.name }

  /** The path of a member: its name without leading slashes, cut to the buffer. */
  function Path(name: seq<Byte>): seq<Byte>
  {
    if name == [] then [DOT] else if name[0] == SLASH then Path(name[1..]) else if |name| <= 255 then name
      else name[..255]
  }

  function CallsOf(ms: seq<Member>, ok: seq<Byte> -> bool): seq<Call>
  {
    if ms == [] then [] else CallsFor(Path(ms[0].name), ms[0].mode, ms[0].data, ok) + CallsOf(ms[1..], ok)
  }

  /** The bytes s are in the archive at p. */
  ghost predicate Holds(a: seq<Byte>, p: nat, s: seq<Byte>)
  {
    p + |s| <= |a| && a[p..p + |s|] == s
  }

  lemma {:induction false} HoldsPart(a: seq<Byte>, p: nat, s: seq<Byte>, i: nat, n: nat)
    requires Holds(a, p, s) && i + n <= |s|
    ensures Bytes(a, p + i, n) == s[i..i + n]
  {
    var part := s[i..i + n];
    forall k: nat {:trigger part[k]} | k < n ensures Bytes(a, p + i, n)[k] == part[k] {
      assert a[p..p + |s|][i + k] == a[p + i + k];
      assert Bytes(a, p + i, n)[k] == At(a, p + i + k);
    }
  }

  lemma {:induction false} HexAllAt(f: seq<nat>, k: nat)
    requires k < |f|
    ensures HexAll(f)[8 * k..8 * k + 8] == Hex(f[k], 8)
  {
    if k < |f| - 1 {
      var g := f[..|f| - 1];
      HexAllAt(g, k);
      assert HexAll(f)[8 * k..8 * k + 8] == HexAll(g)[8 * k..8 * k + 8];
    }
  }

  /** The header of a member reads back. */
  lemma {:induction false} HeadReads(a: seq<Byte>, p: nat, m: Member)
    requires Proper(m) && Holds(a, p, Encode(m))
    ensures HeadAt(a, p) == Head(|m.name| + 1, |m.data|, m.mode) && Bytes(a, p, 6) == MAGIC
  {
    var f := HeaderFields(m);
    FieldReads(a, p, m, 1);
    FieldReads(a, p, m, 6);
    FieldReads(a, p, m, 11);
    HoldsPart(a, p, Encode(m), 0, 6);
    assert Encode(m)[0..6] == MAGIC;
    assert f[1] == m.mode && f[6] == |m.data| && f[11] == |m.name| + 1;
  }

  lemma {:induction false} FieldReads(a: seq<Byte>, p: nat, m: Member, k: nat)
    requires Proper(m) && Holds(a, p, Encode(m)) && k < 13
    ensures HexValue(Bytes(a, p + 6 + 8 * k, 8)) == HeaderFields(m)[k]
  {
    var f := HeaderFields(m);
    EncodedField(m, k);
    HoldsPart(a, p, Encode(m), 6 + 8 * k, 8);
    hide Encode, HeaderFields, Bytes, Hex, HexValue;
    FitsEight(f[k]);
    HexRoundTrip(f[k], 8);
  }

  lemma {:induction false} EncodedField(m: Member, k: nat)
    requires k < 13
    ensures 6 + 8 * k + 8 <= |Encode(m)| && Encode(m)[6 + 8 * k..6 + 8 * k + 8] == Hex(HeaderFields(m)[k], 8)
  {
    var f := HeaderFields(m);
    HexAllAt(f, k);
    hide HexAll, HeaderFields, Hex;
    assert Encode(m)[6 + 8 * k..6 + 8 * k + 8] == HexAll(f)[8 * k..8 * k + 8];
  }

  /** The parts of an encoded member: header, name, padding, data, padding. */
  lemma {:induction false} EncodedParts(m: Member)
    ensures var d := HEADER + |m.name| + 1 + Pad(HEADER + |m.name| + 1);
      && |Encode(m)| == d + |m.data| + Pad(|m.data|) && d % 4 == 0
      && Encode(m)[HEADER..HEADER + |m.name| + 1] == m.name + [0] && Encode(m)[d..d + |m.data|] == m.data
  {
    PadsToFour(HEADER + |m.name| + 1, |m.data|);
    hide HexAll;
  }

  lemma {:induction false} NameReads(a: seq<Byte>, p: nat, name: seq<Byte>, n: nat)
    requires Holds(a, p, name + [0]) && (forall i :: 0 <= i < |name| ==> name[i] != 0)
    ensures CString(a, p, n) == if |name| <= n then name else name[..n]
    decreases n
  {
    assert At(a, p) == (name + [0])[0];
    if name != [] && n > 0 {
      assert a[p + 1..p + 1 + |name|] == a[p..p + |name| + 1][1..];
      assert name[1..] + [0] == (name + [0])[1..];
      NameReads(a, p + 1, name[1..], n - 1);
    }
  }

  lemma {:induction false} PathReads(a: seq<Byte>, p: nat, name: seq<Byte>)
    requires Holds(a, p, name + [0]) && (forall i :: 0 <= i < |name| ==> name[i] != 0)
    ensures PathAt(a, p) == Path(name)
    decreases |name|
  {
    assert At(a, p) == (name + [0])[0];
    if name != [] && name[0] == SLASH {
      assert a[p + 1..p + 1 + |name|] == a[p..p + |name| + 1][1..];
      assert name[1..] + [0] == (name + [0])[1..];
      PathReads(a, p + 1, name[1..]);
    } else {
      NameReads(a, p, name, 255);
    }
  }

  /** Aligning past a name or data of an aligned archive is padding it. */
  lemma {:induction false} AlignIsPad(base: nat, p: nat, n: nat)
    requires base % 4 == 0 && p % 4 == 0
    ensures Align4(base, p + n) == p + n + Pad(n)
  {
    var k, r := base / 4 + p / 4 + n / 4, n % 4;
    assert base + (p + n) == 4 * k + r;
    RoundUp(k, r);
    assert Pad(n) == if r == 0 then 0 else 4 - r;
  }

  lemma {:induction false} RoundUp(k: nat, r: nat)
    requires r < 4
    ensures (4 * k + r + 3) / 4 * 4 == 4 * k + if r == 0 then 0 else 4
  {
  }

  lemma {:induction false} NotTrailer(a: seq<Byte>, p: nat, name: seq<Byte>)
    requires Holds(a, p, name + [0]) && !(TRAILER <= name) && forall i :: 0 <= i < |name| ==> name[i] != 0
    ensures Bytes(a, p, 10) != TRAILER
  {
    if |name| < 10 {
      NameByte(a, p, name, |name|);
      assert Bytes(a, p, 10)[|name|] != TRAILER[|name|];
    } else {
      assert name[..10] != TRAILER;
      var i :| 0 <= i < 10 && name[i] != TRAILER[i];
      NameByte(a, p, name, i);
    }
  }

  lemma {:induction false} NameByte(a: seq<Byte>, p: nat, name: seq<Byte>, i: nat)
    requires Holds(a, p, name + [0]) && i <= |name| && i < 10
    ensures Bytes(a, p, 10)[i] == (name + [0])[i]
  {
    var s := name + [0];
    assert Bytes(a, p, 10)[i] == At(a, p + i) == a[p..p + |s|][i] == s[i];
  }

  /** A member of an aligned archive is read whole, and reading goes on after it. */
  lemma {:induction false} MemberReads(a: seq<Byte>, base: nat, p: nat, m: Member, ok: seq<Byte> -> bool)
    requires Proper(m) && !Ending(m) && Holds(a, p, Encode(m)) && base % 4 == 0 && p % 4 == 0
    ensures CallsFrom(a, base, p, ok) == CallsFor(Path(m.name), m.mode, m.data, ok)
      + CallsFrom(a, base, p + |Encode(m)|, ok)
  {
    hide Encode, CallsFrom, CallsFor, Bytes, HexValue, PathAt, Path, Pad, Align4, Proper, Holds, Readable;
    MemberReadable(a, base, p, m);
    MemberPath(a, p, m);
    OneMember(a, base, p, ok, []);
    assert [] + CallsFor(Path(m.name), m.mode, m.data, ok) == CallsFor(Path(m.name), m.mode, m.data, ok);
  }

  lemma {:induction false} MemberPath(a: seq<Byte>, p: nat, m: Member)
    requires Proper(m) && Holds(a, p, Encode(m))
    ensures Holds(a, p + HEADER, m.name + [0]) && PathAt(a, p + HEADER) == Path(m.name)
  {
    EncodedParts(m);
    HoldsSlice(a, p, Encode(m), HEADER, |m.name| + 1);
    hide Encode;
    PathReads(a, p + HEADER, m.name);
  }

  lemma {:induction false} MemberReadable(a: seq<Byte>, base: nat, p: nat, m: Member)
    requires Proper(m) && !Ending(m) && Holds(a, p, Encode(m)) && base % 4 == 0 && p % 4 == 0
    ensures Readable(a, base, p) && HeadAt(a, p) == Head(|m.name| + 1, |m.data|, m.mode)
    ensures var h := HeadAt(a, p);
      NextAt(base, p, h) == p + |Encode(m)| && Bytes(a, DataAt(base, p, h), h.size) == m.data
  {
    hide Encode, Bytes, Pad, Align4, PathAt, Path, HexValue, HeadAt;
    var d := HEADER + |m.name| + 1 + Pad(HEADER + |m.name| + 1);
    HeadReads(a, p, m);
    MemberPath(a, p, m);
    NotTrailer(a, p + HEADER, m.name);
    Offsets(base, p, m);
    EncodedParts(m);
    HoldsPart(a, p, Encode(m), d, |m.data|);
  }

  lemma {:induction false} Offsets(base: nat, p: nat, m: Member)
    requires base % 4 == 0 && p % 4 == 0
    ensures var n := HEADER + |m.name| + 1;
      Align4(base, p + HEADER + (|m.name| + 1)) == p + n + Pad(n)
        && Align4(base, p + n + Pad(n) + |m.data|) == p + |Encode(m)|
  {
    var n := HEADER + |m.name| + 1;
    EncodedParts(m);
    hide Encode;
    AlignIsPad(base, p, n);
    AlignIsPad(base, p + (n + Pad(n)), |m.data|);
  }

  lemma {:induction false} HoldsSlice(a: seq<Byte>, p: nat, s: seq<Byte>, i: nat, n: nat)
    requires Holds(a, p, s) && i + n <= |s|
    ensures Holds(a, p + i, s[i..i + n])
  {
    var part := s[i..i + n];
    forall k: nat {:trigger part[k]} | k < n ensures a[p + i..p + i + n][k] == part[k] {
      assert a[p..p + |s|][i + k] == a[p + i + k];
    }
    assert a[p + i..p + i + n] == part;
  }

  /** The member that ends an archive. */
  predicate IsTrailer(m: Member) { m.name == TRAILER && m.data == [] && forall i :: 0 <= i < 13 ==>
      HeaderFields(m)[i] < 0x1_0000_0000 }

  /** The members before the first that is taken for the trailer. */
  function Before(ms: seq<Member>): (r: seq<Member>)
    ensures r <= ms && forall i :: 0 <= i < |r| ==> !Ending(r[i])
    ensures |r| < |ms| ==> Ending(ms[|r|])
  {
    if ms == [] || Ending(ms[0]) then [] else [ms[0]] + Before(ms[1..])
  }

  /** Unpacking inverts newc encoding up to the first member that is taken for the trailer:
      for any list of members, followed by the trailer and by anything at all, the calls are
      those of the members before it, in order. */
  lemma {:induction false} UnpackInverts(a: seq<Byte>, base: nat, p: nat, ms: seq<Member>, end: Member,
      rest: seq<Byte>, ok: seq<Byte> -> bool)
    requires (forall i :: 0 <= i < |ms| ==> Proper(ms[i])) && IsTrailer(end) && base % 4 == 0 && p % 4 == 0 && p <= |a|
    requires a[p..] == EncodeAll(ms) + Encode(end) + rest
    ensures CallsFrom(a, base, p, ok) == CallsOf(Before(ms), ok)
    decreases |ms|
  {
    hide Encode, CallsFrom, CallsFor, Proper;
    if ms == [] {
      assert EncodeAll(ms) + Encode(end) == Encode(end);
      PrefixHolds(a, p, Encode(end), rest);
      EndingStops(a, base, p, end, ok);
    } else {
      var s, t := Encode(ms[0]), EncodeAll(ms[1..]) + Encode(end) + rest;
      assert a[p..] == s + t;
      PrefixHolds(a, p, s, t);
      if Ending(ms[0]) {
        EndingStops(a, base, p, ms[0], ok);
      } else {
        MemberReads(a, base, p, ms[0], ok);
        UnpackInverts(a, base, p + |s|, ms[1..], end, rest, ok);
        assert ([ms[0]] + Before(ms[1..]))[1..] == Before(ms[1..]);
      }
    }
  }

  lemma {:induction false} PrefixHolds(a: seq<Byte>, p: nat, s: seq<Byte>, t: seq<Byte>)
    requires p <= |a| && a[p..] == s + t
    ensures Holds(a, p, s) && a[p + |s|..] == t
  {
    assert a[p..p + |s|] == a[p..][..|s|] == (s + t)[..|s|];
    assert a[p + |s|..] == a[p..][|s|..] == (s + t)[|s|..];
  }

  /** A name that starts like the trailer ends the archive. */
  lemma {:induction false} EndingStops(a: seq<Byte>, base: nat, p: nat, end: Member, ok: seq<Byte> -> bool)
    requires Holds(a, p, Encode(end)) && Ending(end)
    ensures CallsFrom(a, base, p, ok) == []
  {
    EncodedParts(end);
    HoldsPart(a, p, Encode(end), HEADER, 10);
    assert Encode(end)[HEADER..HEADER + 10] == Encode(end)[HEADER..HEADER + |end.name| + 1][..10] == TRAILER;
    hide Encode, CallsFrom;
    Stops(a, base, p, ok);
  }

  // ----- names that start like the trailer -----

  /** Members that ask for nothing: the root, and what is neither a file nor a directory. */
  predicate Silent(m: Member)
  {
    Path(m.name) == [DOT] || (m.mode / 0x1000 % 16 != 8 && m.mode / 0x1000 % 16 != 4)
  }

  lemma {:induction false} CallsConcat(ms: seq<Member>, ns: seq<Member>, ok: seq<Byte> -> bool)
    ensures CallsOf(ms + ns, ok) == CallsOf(ms, ok) + CallsOf(ns, ok)
  {
    hide CallsFor;
    if ms == [] {
      assert ms + ns == ns;
    } else {
      CallsConcat(ms[1..], ns, ok);
      assert (ms + ns)[1..] == ms[1..] + ns && (ms + ns)[0] == ms[0];
      var c, x, y := CallsFor(Path(ms[0].name), ms[0].mode, ms[0].data, ok), CallsOf(ms[1..], ok), CallsOf(ns, ok);
      assert c + (x + y) == c + x + y;
    }
  }

  lemma {:induction false} SilentCalls(ms: seq<Member>, ok: seq<Byte> -> bool)
    ensures CallsOf(ms, ok) == [] <==> forall i :: 0 <= i < |ms| ==> Silent(ms[i])
  {
    if ms != [] {
      SilentCalls(ms[1..], ok);
      assert Silent(ms[0]) <==> CallsFor(Path(ms[0].name), ms[0].mode, ms[0].data, ok) == [];
      assert ms == [ms[0]] + ms[1..];
    }
  }

  /** The whole list is unpacked exactly if no file and no directory comes at or after a
      member whose name starts like the trailer. */
  lemma {:induction false} UnpackExact(a: seq<Byte>, base: nat, ms: seq<Member>, end: Member, rest: seq<Byte>,
      ok: seq<Byte> -> bool)
    requires (forall i :: 0 <= i < |ms| ==> Proper(ms[i])) && IsTrailer(end) && base % 4 == 0
      && a == EncodeAll(ms) + Encode(end) + rest
    ensures CallsFrom(a, base, 0, ok) == CallsOf(ms, ok) <==>
      forall i, j :: 0 <= i <= j < |ms| && Ending(ms[i]) ==> Silent(ms[j])
  {
    hide Encode, CallsFrom, CallsOf, Silent, Proper, Ending;
    var b := Before(ms);
    var n := ms[|b|..];
    assert a[0..] == a;
    UnpackInverts(a, base, 0, ms, end, rest, ok);
    assert ms == b + n;
    CallsConcat(b, n, ok);
    SilentCalls(n, ok);
    SilentFrom(ms, |b|);
    assert CallsOf(b, ok) == CallsOf(b, ok) + CallsOf(n, ok) <==> CallsOf(n, ok) == [];
  }

  lemma {:induction false} SilentFrom(ms: seq<Member>, k: nat)
    requires k <= |ms| && (k < |ms| ==> Ending(ms[k])) && forall i :: 0 <= i < k ==> !Ending(ms[i])
    ensures (forall i :: 0 <= i < |ms[k..]| ==> Silent(ms[k..][i])) <==>
      forall i, j :: 0 <= i <= j < |ms| && Ending(ms[i]) ==> Silent(ms[j])
  {
    hide Silent, Ending;
    if forall i :: 0 <= i < |ms[k..]| ==> Silent(ms[k..][i]) {
      forall i, j | 0 <= i <= j < |ms| && Ending(ms[i]) ensures Silent(ms[j]) {
        assert ms[k..][j - k] == ms[j];
      }
    }
  }

  /** A regular file "TRAILER!!!x" with one byte of data. */
  function Victim(): Member { Member(TRAILER + [0x78], 0x81A4, [7], 1, 0, 0, 1, 0, 0, 0, 0, 0, 0) }

  lemma {:induction false} VictimProper()
    ensures Proper(Victim()) && Ending(Victim()) && !Silent(Victim())
  {
    var v := Victim();
    assert v.name[0] == 0x54 && Path(v.name) == v.name && |v.name| == 11;
    assert v.mode / 0x1000 % 16 == 8;
  }

  /** The file is in the archive and is not made. */
  lemma {:induction false} VictimLost(a: seq<Byte>, end: Member, ok: seq<Byte> -> bool)
    requires IsTrailer(end) && a == Encode(Victim()) + Encode(end)
    ensures Proper(Victim()) && CallsOf([Victim()], ok) != [] && CallsFrom(a, 0, 0, ok) == []
  {
    hide Encode, CallsFrom, CallsOf, Victim, Proper, Ending, Silent;
    VictimProper();
    SilentCalls([Victim()], ok);
    assert !Silent([Victim()][0]);
    assert a[0..] == a;
    PrefixHolds(a, 0, Encode(Victim()), Encode(end));
    EndingStops(a, 0, 0, Victim(), ok);
  }
}
