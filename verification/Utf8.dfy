/** The UTF-8 decoder inside `flanterm_putchar`, against section 3 of RFC 3629. */
module Utf8 {
  import opened Wrappers

  // ----- RFC 3629 -----

  predicate Scalar(cp: nat) { cp < 0xD800 || 0xE000 <= cp <= 0x10FFFF }

  predicate Tail(b: nat) { 0x80 <= b <= 0xBF }

  /** The code point of a well-formed byte sequence. */
  function Decode(s: seq<nat>): Option<nat>
  {
    if |s| == 1 && s[0] <= 0x7F then Some(s[0])
    else if |s| == 2 && 0xC2 <= s[0] <= 0xDF && Tail(s[1]) then Some((s[0] - 0xC0) * 64 + (s[1] - 0x80))
    else if |s| == 3 && 0xE0 <= s[0] <= 0xEF && Tail(s[1]) && Tail(s[2]) && (s[0] == 0xE0 ==> 0xA0 <= s[1])
      && (s[0] == 0xED ==> s[1] <= 0x9F)
      then Some((s[0] - 0xE0) * 4096 + (s[1] - 0x80) * 64 + (s[2] - 0x80))
    else if |s| == 4 && 0xF0 <= s[0] <= 0xF4 && Tail(s[1]) && Tail(s[2]) && Tail(s[3])
      && (s[0] == 0xF0 ==> 0x90 <= s[1]) && (s[0] == 0xF4 ==> s[1] <= 0x8F)
      then Some((s[0] - 0xF0) * 0x4_0000 + (s[1] - 0x80) * 4096 + (s[2] - 0x80) * 64 + (s[3] - 0x80))
    else None
  }

  function Encode(cp: nat): (s: seq<nat>)
    requires Scalar(cp)
    ensures 1 <= |s| <= 4
  {
    if cp <= 0x7F then [cp]
    else if cp <= 0x7FF then [0xC0 + cp / 64, 0x80 + cp % 64]
    else if cp <= 0xFFFF then [0xE0 + cp / 4096, 0x80 + cp / 64 % 64, 0x80 + cp % 64]
    else [0xF0 + cp / 0x4_0000, 0x80 + cp / 4096 % 64, 0x80 + cp / 64 % 64, 0x80 + cp % 64]
  }

  /** Decoding is the inverse of encoding. */
  lemma {:induction false} DecodeEncode(cp: nat)
    requires Scalar(cp)
    ensures Decode(Encode(cp)) == Some(cp)
  {
    Digits(cp);
  }

  lemma {:induction false} Digits(cp: nat)
    requires cp <= 0x10FFFF
    ensures cp == cp / 64 * 64 + cp % 64 && cp / 64 == cp / 4096 * 64 + cp / 64 % 64
      && cp / 4096 == cp / 0x4_0000 * 64 + cp / 4096 % 64
    ensures cp <= 0x7FF ==> cp / 64 <= 0x1F && (cp >= 0x80 ==> cp / 64 >= 2)
    ensures cp <= 0xFFFF ==> cp / 4096 <= 0xF
    ensures cp / 0x4_0000 <= 4 && (cp / 0x4_0000 == 4 ==> cp / 4096 % 64 <= 0xF)
  {
    assert cp / 64 / 64 == cp / 4096 && cp / 4096 / 64 == cp / 0x4_0000;
  }

  /** The examples of section 7 of RFC 3629, and the last scalar value. */
  lemma {:induction false} KnownEncodings()
    ensures Encode(0x41) == [0x41] && Encode(0x2262) == [0xE2, 0x89, 0xA2] && Encode(0x391) == [0xCE, 0x91]
    ensures Encode(0xD55C) == [0xED, 0x95, 0x9C] && Encode(0x233B4) == [0xF0, 0xA3, 0x8E, 0xB4]
    ensures Encode(0x10FFFF) == [0xF4, 0x8F, 0xBF, 0xBF]
  {
  }

  /** A decoded code point is a scalar value and its bytes are its only encoding. */
  lemma {:induction false} EncodeDecode(s: seq<nat>)
    requires Decode(s).Some?
    ensures Scalar(Decode(s).value) && Encode(Decode(s).value) == s
  {
    var cp := Decode(s).value;
    if |s| == 2 {
      Pair(s[0] - 0xC0, s[1] - 0x80, cp);
    } else if |s| == 3 {
      var hi := (s[0] - 0xE0) * 64 + (s[1] - 0x80);
      Pair(hi, s[2] - 0x80, cp);
      Pair(s[0] - 0xE0, s[1] - 0x80, hi);
      Twice(cp);
    } else if |s| == 4 {
      var mid := (s[0] - 0xF0) * 64 + (s[1] - 0x80);
      var hi := mid * 64 + (s[2] - 0x80);
      Pair(hi, s[3] - 0x80, cp);
      Pair(mid, s[2] - 0x80, hi);
      Pair(s[0] - 0xF0, s[1] - 0x80, mid);
      Twice(cp);
    }
  }

  lemma {:induction false} Pair(a: nat, b: nat, n: nat)
    requires b < 64 && n == a * 64 + b
    ensures n / 64 == a && n % 64 == b
  {
  }

  lemma {:induction false} Twice(n: nat)
    ensures n / 4096 == n / 64 / 64 && n / 0x4_0000 == n / 64 / 64 / 64
  {
  }

  // ----- the decoder -----

  const MAX: nat := 0xFFFF_FFFF_FFFF_FFFF

  /** `code_point` and `unicode_remaining`. */
  datatype Utf = Utf(cp: nat, rem: nat)

  /** What a byte makes the terminal do: look a code point up, print the replacement
      character and keep it for repetition or not, or go on with the byte as a character of its own. */
  datatype Event = Glyph(cp: nat) | Bad(kept: bool) | Plain(c: nat)

  /** `x << (6 * k)` for k up to two. */
  function Shifted(x: nat, k: nat): nat
  {
    if k == 0 then x else if k == 1 then 64 * x else 4096 * x
  }

  /** `code_point | x << (6 * k)`, where the bits below are clear or all are set. */
  function Or(cp: nat, x: nat, k: nat): nat
  {
    if cp == MAX then MAX else cp + Shifted(x, k)
  }

  /** The code after the label `unicode_error`. */
  function Fresh(u: Utf, c: nat): (Utf, seq<Event>)
  {
    if 0xC2 <= c <= 0xDF then (Utf((c - 0xC0) * 64, 1), [])
    else if 0xE0 <= c <= 0xEF then (Utf((c - 0xE0) * 4096, 2), [])
    else if 0xF0 <= c <= 0xF4 then (Utf((c - 0xF0) * 0x4_0000, 3), [])
    else (u, [Plain(c)])
  }

  function Step(u: Utf, c: nat): (Utf, seq<Event>)
  {
    if u.rem == 0 then Fresh(u, c)
    else if !Tail(c) then
      var f := Fresh(Utf(0, 0), c);
      (f.0, (if u.cp > 0x10FFFF then [] else [Bad(false)]) + f.1)
    else
      var rem := u.rem - 1;
      var cp := Or(u.cp, c - 0x80, rem);
      if cp > 0x10FFFF then (Utf(cp, rem), [])
      else if (rem == 1 && cp < 0x800) || (rem == 2 && cp < 0x1_0000) then (Utf(MAX, rem), [Bad(true)])
      else if rem != 0 then (Utf(cp, rem), [])
      else if 0xD800 <= cp <= 0xDFFF then Fresh(Utf(cp, 0), c)
      else (Utf(cp, 0), [Glyph(cp)])
  }

  lemma {:induction false} StepRem(u: Utf, c: nat)
    requires u.rem <= 3
    ensures Step(u, c).0.rem <= 3
  {
  }

  /** Everything a stream of bytes makes the terminal do. */
  function Run(u: Utf, s: seq<nat>): (r: (Utf, seq<Event>))
  {
    if s == [] then (u, [])
    else var (v, es) := Run(u, s[..|s| - 1]); var (w, fs) := Step(v, s[|s| - 1]); (w, es + fs)
  }

  /** The code points among the events. */
  function Glyphs(es: seq<Event>): seq<nat>
  {
    if es == [] then [] else Glyphs(es[..|es| - 1]) + (if es[|es| - 1].Glyph? then [es[|es| - 1].cp] else [])
  }

  lemma {:induction false} GlyphsIn(es: seq<Event>, cp: nat)
    ensures cp in Glyphs(es) <==> Glyph(cp) in es
  {
    if es != [] {
      GlyphsIn(es[..|es| - 1], cp);
      assert es == es[..|es| - 1] + [es[|es| - 1]];
    }
  }

  lemma {:induction false} GlyphsConcat(es: seq<Event>, fs: seq<Event>)
    ensures Glyphs(es + fs) == Glyphs(es) + Glyphs(fs)
  {
    if fs == [] {
      assert es + fs == es;
    } else {
      GlyphsConcat(es, fs[..|fs| - 1]);
      assert (es + fs)[..|es + fs| - 1] == es + fs[..|fs| - 1];
    }
  }

  /** A byte yields a code point only as its one event. */
  lemma {:induction false} GlyphsOf(u: Utf, c: nat)
    ensures var es := Step(u, c).1; Glyphs(es) == if |es| == 1 && es[0].Glyph? then [es[0].cp] else []
  {
    var es := Step(u, c).1;
    assert |es| <= 2 && (|es| == 2 ==> !es[0].Glyph? && !es[1].Glyph?);
    if |es| >= 1 {
      assert es[..1][..0] == [];
      assert Glyphs(es[..1]) == Glyphs([]) + if es[0].Glyph? then [es[0].cp] else [];
      assert es[..|es|] == es;
    }
  }

  /** Bytes that follow a lead byte. */
  function Length(lead: nat): nat { if lead <= 0xDF then 2 else if lead <= 0xEF then 3 else 4 }

  /** The six bits of byte i, if it is there. */
  function Payload(p: seq<nat>, i: nat): nat { if i < |p| && Tail(p[i]) then p[i] - 0x80 else 0 }

  /** The value of a lead byte and the bytes after it, so far. */
  function Partial(p: seq<nat>): nat
    requires 1 <= |p| <= 4 && 0xC2 <= p[0] <= 0xF4 && forall i :: 1 <= i < |p| ==> Tail(p[i])
  {
    var x, y, z := Payload(p, 1), Payload(p, 2), Payload(p, 3);
    if p[0] <= 0xDF then (p[0] - 0xC0) * 64 + x
    else if p[0] <= 0xEF then (p[0] - 0xE0) * 4096 + x * 64 + y
    else (p[0] - 0xF0) * 0x4_0000 + x * 4096 + y * 64 + z
  }

  /** The bytes p are the part of a sequence that the decoder is in the middle of. */
  predicate Amid(u: Utf, p: seq<nat>)
  {
    if p == [] then u.rem == 0
    else
      && 1 <= u.rem <= 3 && 0xC2 <= p[0] <= 0xF4 && |p| + u.rem == Length(p[0])
      && (forall i :: 1 <= i < |p| ==> Tail(p[i]))
      && (u.cp > 0x10FFFF || (u.cp == Partial(p) && (|p| >= 2 && Length(p[0]) == 3 ==> u.cp >= 0x800)
           && (|p| >= 2 && Length(p[0]) == 4 ==> u.cp >= 0x1_0000)))
  }

  /** The part of a sequence after one more byte. */
  function Grown(p: seq<nat>, c: nat): seq<nat>
  {
    if p != [] && Tail(c) && |p| + 1 < Length(p[0]) then p + [c]
    else if 0xC2 <= c <= 0xF4 then [c]
    else []
  }

  /** One byte: the decoder stays in step with the bytes, and a code point it hands on is
      the one that the bytes of its sequence encode. */
  lemma {:induction false} StepSound(u: Utf, p: seq<nat>, c: nat)
    requires Amid(u, p) && c < 256
    ensures Amid(Step(u, c).0, Grown(p, c))
    ensures forall e :: e in Step(u, c).1 && e.Glyph? ==> p != [] && Decode(p + [c]) == Some(e.cp)
  {
    if u.rem > 0 && Tail(c) {
      TailSound(u, p, c);
    }
  }

  lemma {:induction false} TailSound(u: Utf, p: seq<nat>, c: nat)
    requires Amid(u, p) && p != [] && Tail(c)
    ensures Amid(Step(u, c).0, Grown(p, c))
    ensures forall e :: e in Step(u, c).1 && e.Glyph? ==> Decode(p + [c]) == Some(e.cp)
  {
    var q := p + [c];
    assert forall i :: 1 <= i < |q| ==> Tail(q[i]);
    if u.cp <= 0x10FFFF {
      PartialGrows(p, c);
      hide Partial, Decode;
      if u.rem == 1 {
        LastByte(u, p, c);
      }
    }
  }

  lemma {:induction false} PartialGrows(p: seq<nat>, c: nat)
    requires p != [] && 0xC2 <= p[0] <= 0xF4 && |p| < Length(p[0]) && Tail(c) && forall i :: 1 <= i < |p| ==> Tail(p[i])
    ensures Partial(p + [c]) == Partial(p) + Shifted(c - 0x80, Length(p[0]) - |p| - 1)
  {
    var q := p + [c];
    assert forall i :: 1 <= i < |q| ==> Tail(q[i]);
  }

  /** The last byte completes a well-formed sequence unless the value is out of range. */
  lemma {:induction false} LastByte(u: Utf, p: seq<nat>, c: nat)
    requires Amid(u, p) && p != [] && Tail(c) && u.rem == 1 && u.cp <= 0x10FFFF
    ensures var q := p + [c];
      (forall i :: 1 <= i < |q| ==> Tail(q[i]))
      && (Partial(q) <= 0x10FFFF && !(0xD800 <= Partial(q) <= 0xDFFF) ==> Decode(q) == Some(Partial(q)))
  {
    var q := p + [c];
    assert forall i :: 1 <= i < |q| ==> Tail(q[i]);
    assert q[0] == p[0] && (|p| > 1 ==> q[1] == p[1]) && (|p| > 2 ==> q[2] == p[2]) && q[|p|] == c;
  }

  /** The bytes at the end of a stream that the decoder is in the middle of. */
  function Open(s: seq<nat>): (p: seq<nat>)
  {
    if s == [] then [] else Grown(Open(s[..|s| - 1]), s[|s| - 1])
  }

  lemma {:induction false} OpenSuffix(s: seq<nat>)
    ensures |Open(s)| <= |s| && Open(s) == s[|s| - |Open(s)|..]
  {
    if s != [] {
      OpenSuffix(s[..|s| - 1]);
    }
  }

  lemma {:induction false} NothingYet()
    ensures Amid(Utf(0, 0), [])
  {
  }

  /** Soundness for every byte stream: each code point that is looked up is a Unicode
      scalar value, and it is what the last bytes of the stream encode. */
  lemma {:induction false} LookupsDecode(s: seq<nat>, cp: nat)
    requires forall i :: 0 <= i < |s| ==> s[i] < 256
    ensures Amid(Run(Utf(0, 0), s).0, Open(s))
    ensures s != [] && Glyph(cp) in Step(Run(Utf(0, 0), s[..|s| - 1]).0, s[|s| - 1]).1 ==>
      Scalar(cp) && exists k :: 0 <= k < |s| && Decode(s[k..]) == Some(cp)
  {
    hide Step, Decode, Amid, Grown, Scalar, Encode;
    NothingYet();
    if s != [] {
      var t, c := s[..|s| - 1], s[|s| - 1];
      LookupsDecode(t, cp);
      var u := Run(Utf(0, 0), t).0;
      StepSound(u, Open(t), c);
      if Glyph(cp) in Step(u, c).1 {
        OpenSuffix(t);
        var k := |t| - |Open(t)|;
        assert s[k..] == Open(t) + [c];
        EncodeDecode(s[k..]);
      }
    }
  }

  // ----- well-formed text -----

  function EncodeAll(cps: seq<nat>): seq<nat>
    requires forall i :: 0 <= i < |cps| ==> Scalar(cps[i])
  {
    if cps == [] then [] else EncodeAll(cps[..|cps| - 1]) + Encode(cps[|cps| - 1])
  }

  /** The event for a code point of the text. */
  function Shown(cp: nat): Event { if cp <= 0x7F then Plain(cp) else Glyph(cp) }

  function ShownAll(cps: seq<nat>): seq<Event>
  {
    if cps == [] then [] else ShownAll(cps[..|cps| - 1]) + [Shown(cps[|cps| - 1])]
  }

  lemma {:induction false} RunConcat(u: Utf, s: seq<nat>, t: seq<nat>)
    ensures Run(u, s + t).0 == Run(Run(u, s).0, t).0 && Run(u, s + t).1 == Run(u, s).1 + Run(Run(u, s).0, t).1
  {
    hide Step;
    if t == [] {
      assert s + t == s;
    } else {
      var t' := t[..|t| - 1];
      RunConcat(u, s, t');
      assert (s + t)[..|s + t| - 1] == s + t';
    }
  }

  lemma {:induction false} RunOne(u: Utf, c: nat)
    ensures Run(u, [c]) == Step(u, c)
  {
    hide Step;
    assert [c][..0] == [];
    assert Run(u, []) == (u, []);
    assert [] + Step(u, c).1 == Step(u, c).1;
  }

  lemma {:induction false} RunTwo(u: Utf, a: nat, b: nat)
    ensures Run(u, [a, b]).0 == Step(Step(u, a).0, b).0 && Run(u, [a, b]).1 == Step(u, a).1 + Step(Step(u, a).0, b).1
  {
    RunConcat(u, [a], [b]);
    assert [a] + [b] == [a, b];
    RunOne(u, a);
    RunOne(Step(u, a).0, b);
  }

  /** Every code point decodes from its encoding, and the decoder is back where it was. */
  lemma {:induction false} RunEncode(u: Utf, cp: nat)
    requires Scalar(cp) && u.rem == 0
    ensures Run(u, Encode(cp)).0.rem == 0 && Run(u, Encode(cp)).1 == [Shown(cp)]
  {
    Digits(cp);
    var s := Encode(cp);
    if cp <= 0x7F {
      RunOne(u, cp);
    } else if cp <= 0x7FF {
      RunTwo(u, s[0], s[1]);
    } else if cp <= 0xFFFF {
      ThreeBytes(u, cp, s);
    } else {
      FourBytes(u, cp, s);
    }
  }

  lemma {:induction false} ThreeBytes(u: Utf, cp: nat, s: seq<nat>)
    requires 0x800 <= cp <= 0xFFFF && Scalar(cp) && u.rem == 0
      && s == [0xE0 + cp / 4096, 0x80 + cp / 64 % 64, 0x80 + cp % 64]
    ensures Run(u, s).0.rem == 0 && Run(u, s).1 == [Glyph(cp)]
  {
    Digits(cp);
    StepTwo(u, s[0], s[1], Utf(cp / 4096 * 4096, 2), Utf(cp / 64 * 64, 1));
    StepLast(Utf(cp / 64 * 64, 1), s[2], cp);
    hide Step;
    RunTwo(u, s[0], s[1]);
    RunConcat(u, [s[0], s[1]], [s[2]]);
    assert [s[0], s[1]] + [s[2]] == s;
    RunOne(Utf(cp / 64 * 64, 1), s[2]);
  }

  lemma {:induction false} StepTwo(u: Utf, a: nat, b: nat, v: Utf, w: Utf)
    requires u.rem == 0 && Fresh(u, a) == (v, []) && v.rem >= 2 && Tail(b)
      && w == Utf(v.cp + Shifted(b - 0x80, v.rem - 1), v.rem - 1)
    requires w.cp <= 0x10FFFF && (w.rem == 1 ==> w.cp >= 0x800) && (w.rem == 2 ==> w.cp >= 0x1_0000)
    ensures Step(u, a) == (v, []) && Step(v, b) == (w, [])
  {
  }

  lemma {:induction false} StepLast(u: Utf, c: nat, cp: nat)
    requires u.rem == 1 && Tail(c) && cp == u.cp + (c - 0x80) && Scalar(cp)
    ensures Step(u, c) == (Utf(cp, 0), [Glyph(cp)])
  {
  }

  lemma {:induction false} FourBytes(u: Utf, cp: nat, s: seq<nat>)
    requires 0x1_0000 <= cp <= 0x10_FFFF && u.rem == 0
      && s == [0xF0 + cp / 0x4_0000, 0x80 + cp / 4096 % 64, 0x80 + cp / 64 % 64, 0x80 + cp % 64]
    ensures Run(u, s).0.rem == 0 && Run(u, s).1 == [Glyph(cp)]
  {
    Digits(cp);
    var v, w := Utf(cp / 4096 * 4096, 2), Utf(cp / 64 * 64, 1);
    StepTwo(u, s[0], s[1], Utf(cp / 0x4_0000 * 0x4_0000, 3), v);
    assert Step(v, s[2]) == (w, []);
    StepLast(w, s[3], cp);
    hide Step;
    RunTwo(u, s[0], s[1]);
    RunTwo(v, s[2], s[3]);
    RunConcat(u, [s[0], s[1]], [s[2], s[3]]);
    assert [s[0], s[1]] + [s[2], s[3]] == s;
  }

  /** Well-formed text decodes to its code points, in order, and the decoder ends where it
      began. */
  lemma {:induction false} TextDecodes(u: Utf, cps: seq<nat>)
    requires u.rem == 0 && forall i :: 0 <= i < |cps| ==> Scalar(cps[i])
    ensures Run(u, EncodeAll(cps)).0.rem == 0 && Run(u, EncodeAll(cps)).1 == ShownAll(cps)
  {
    if cps != [] {
      var rest, cp := cps[..|cps| - 1], cps[|cps| - 1];
      TextDecodes(u, rest);
      RunConcat(u, EncodeAll(rest), Encode(cp));
      RunEncode(Run(u, EncodeAll(rest)).0, cp);
    }
  }
}
