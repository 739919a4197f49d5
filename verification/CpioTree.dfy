/** The files and directories that an initial RAM disk unpacks to. */
module CpioTree {
  import opened LittleEndian
  import opened Cpio

  datatype Node = File(data: seq<Byte>) | Directory

  type Tree = map<seq<Byte>, Node>

  /** What a call does to a file system that can make the paths for which ok holds. */
  function Applied(t: Tree, c: Call, ok: seq<Byte> -> bool): Tree
  {
    match c
    case Create(path) => if ok(path) then t[path := File([])] else t
    case Write(path, data) => t[path := File(data)]
    case Mkdir(path) => if ok(path) then t[path := Directory] else t
  }

  function AppliedAll(t: Tree, cs: seq<Call>, ok: seq<Byte> -> bool): Tree
    decreases |cs|
  {
    if cs == [] then t else AppliedAll(Applied(t, cs[0], ok), cs[1..], ok)
  }

  /** The type in a mode, by its octal digits: 10xxxx is a regular file, 04xxxx a directory. */
  predicate IsFile(m: Member) { 0x8000 <= m.mode % 0x1_0000 < 0x9000 }

  predicate IsDirectory(m: Member) { 0x4000 <= m.mode % 0x1_0000 < 0x5000 }

  /** The member asks for something at path q, which is not the root. */
  predicate Asks(m: Member, q: seq<Byte>)
  {
    Path(m.name) == q && q != [DOT] && (IsFile(m) || IsDirectory(m))
  }

  function NodeOf(m: Member): Node { if IsFile(m) then File(m.data) else Directory }

  /** Member i is the last that asks for path q. */
  ghost predicate LastFor(ms: seq<Member>, q: seq<Byte>, i: nat)
  {
    i < |ms| && Asks(ms[i], q) && forall j :: i < j < |ms| ==> !Asks(ms[j], q)
  }

  lemma {:induction false} AppliedConcat(t: Tree, cs: seq<Call>, ds: seq<Call>, ok: seq<Byte> -> bool)
    ensures AppliedAll(t, cs + ds, ok) == AppliedAll(AppliedAll(t, cs, ok), ds, ok)
    decreases |cs|
  {
    if cs == [] {
      assert cs + ds == ds;
    } else {
      AppliedConcat(Applied(t, cs[0], ok), cs[1..], ds, ok);
      assert (cs + ds)[1..] == cs[1..] + ds;
    }
  }

  lemma {:induction false} KindDigits(mode: nat)
    ensures mode / 0x1000 % 16 == 8 <==> 0x8000 <= mode % 0x1_0000 < 0x9000
    ensures mode / 0x1000 % 16 == 4 <==> 0x4000 <= mode % 0x1_0000 < 0x5000
  {
    var q, r := mode / 0x1_0000, mode % 0x1_0000;
    assert mode == 0x1000 * (16 * q) + r;
    assert mode / 0x1000 == 16 * q + r / 0x1000;
  }

  /** What one member makes: a regular file with its data, or a directory, at its own path
      and nowhere else. */
  lemma {:induction false} MemberMakes(t: Tree, m: Member, ok: seq<Byte> -> bool, q: seq<Byte>)
    ensures var t' := AppliedAll(t, CallsFor(Path(m.name), m.mode, m.data, ok), ok);
      if Asks(m, q) && ok(q) then q in t' && t'[q] == NodeOf(m)
      else (q in t' <==> q in t) && (q in t ==> t'[q] == t[q])
  {
    hide Path;
    KindDigits(m.mode);
    var p := Path(m.name);
    var cs := CallsFor(p, m.mode, m.data, ok);
    if |cs| == 2 {
      assert cs[1..] == [Write(p, m.data)];
      assert cs[1..][1..] == [];
      assert AppliedAll(t, cs, ok) == AppliedAll(Applied(t, cs[0], ok), [Write(p, m.data)], ok);
      assert AppliedAll(Applied(t, cs[0], ok), [Write(p, m.data)], ok) ==
        Applied(Applied(t, cs[0], ok), Write(p, m.data), ok);
    } else if |cs| == 1 {
      assert cs[1..] == [];
    }
  }

  lemma {:induction false} MembersMake(t: Tree, ms: seq<Member>, ok: seq<Byte> -> bool, q: seq<Byte>)
    ensures var t' := AppliedAll(t, CallsOf(ms, ok), ok);
      && (forall i: nat :: LastFor(ms, q, i) && ok(q) ==> q in t' && t'[q] == NodeOf(ms[i]))
      && (!ok(q) || (forall i :: 0 <= i < |ms| ==> !Asks(ms[i], q)) ==>
           (q in t' <==> q in t) && (q in t ==> t'[q] == t[q]))
    decreases |ms|
  {
    hide Asks, NodeOf, CallsFor, Applied, Path;
    if ms != [] {
      var cs := CallsFor(Path(ms[0].name), ms[0].mode, ms[0].data, ok);
      var t1 := AppliedAll(t, cs, ok);
      MemberMakes(t, ms[0], ok, q);
      AppliedConcat(t, cs, CallsOf(ms[1..], ok), ok);
      MembersMake(t1, ms[1..], ok, q);
      forall i: nat | LastFor(ms, q, i) && i > 0 ensures LastFor(ms[1..], q, i - 1) {
        assert ms[1..][i - 1] == ms[i];
      }
      if LastFor(ms, q, 0) {
        forall j | 0 <= j < |ms[1..]| ensures !Asks(ms[1..][j], q) {
          assert ms[1..][j] == ms[j + 1];
        }
      }
    }
  }

  /** An archive becomes the tree of its members: at every path there is the file, with its
      data, or the directory that the last member with that path is, and there is nothing
      else. Members from the first whose name starts like the trailer's on do not count. */
  lemma {:induction false} TreeUnpacked(a: seq<Byte>, base: nat, ms: seq<Member>, end: Member, rest: seq<Byte>,
      ok: seq<Byte> -> bool, q: seq<Byte>)
    requires (forall i :: 0 <= i < |ms| ==> Proper(ms[i])) && IsTrailer(end) && base % 4 == 0
      && a == EncodeAll(ms) + Encode(end) + rest
    ensures var t, ns := AppliedAll(map[], CallsFrom(a, base, 0, ok), ok), Before(ms);
      && (forall i: nat :: LastFor(ns, q, i) && ok(q) ==> q in t && t[q] == NodeOf(ns[i]))
      && (q in t ==> ok(q) && exists i :: 0 <= i < |ns| && Asks(ns[i], q))
  {
    hide Encode, CallsFrom, CallsOf, Proper, Asks, NodeOf, Applied;
    assert a[0..] == a;
    UnpackInverts(a, base, 0, ms, end, rest, ok);
    MembersMake(map[], Before(ms), ok, q);
  }

  // ----- paths and numbers -----

  function Slashes(k: nat): seq<Byte> { if k == 0 then [] else [SLASH] + Slashes(k - 1) }

  /** Leading slashes are dropped, however many; what is left is the path, or the root. */
  lemma {:induction false} PathIs(k: nat, name: seq<Byte>)
    requires name == [] || name[0] != SLASH
    ensures Path(Slashes(k) + name) == if name == [] then [DOT] else if |name| <= 255 then name else name[..255]
  {
    if k == 0 {
      assert Slashes(k) + name == name;
    } else {
      PathIs(k - 1, name);
      assert (Slashes(k) + name)[1..] == Slashes(k - 1) + name;
    }
  }

  /** The digits in order, small and capital. */
  const DIGITS: string := "0123456789abcdef"
  const CAPITALS: string := "0123456789ABCDEF"

  lemma {:induction false} NibbleIs(d: nat)
    requires d < 16
    ensures DIGITS[d] as int < 256 && Nibble(DIGITS[d] as int) == d
    ensures CAPITALS[d] as int < 256 && Nibble(CAPITALS[d] as int) == d
  {
    assert d == 0 || d == 1 || d == 2 || d == 3 || d == 4 || d == 5 || d == 6 || d == 7 || d == 8 || d == 9 || d == 10
      || d == 11 || d == 12 || d == 13 || d == 14 || d == 15;
  }

  function Power16(n: nat): nat { if n == 0 then 1 else 16 * Power16(n - 1) }

  /** The first digit counts most. */
  lemma {:induction false} HexPlaces(c: Byte, s: seq<Byte>)
    ensures HexValue([c] + s) == Nibble(c) * Power16(|s|) + HexValue(s)
  {
    var t := [c] + s;
    if s == [] {
      assert t[..0] == [];
    } else {
      var init := s[..|s| - 1];
      HexPlaces(c, init);
      assert t[..|t| - 1] == [c] + init;
      Regroup(Nibble(c), Power16(|init|), HexValue(init), Nibble(s[|s| - 1]));
    }
  }

  lemma {:induction false} Regroup(a: nat, p: nat, v: nat, d: nat)
    ensures 16 * (a * p + v) + d == a * (16 * p) + (16 * v + d)
  {
    assert a * (16 * p) == 16 * (a * p);
  }
}
