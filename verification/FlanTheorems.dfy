/** What streams of bytes mean to the terminal: text, control sequences and mixtures. */
module FlanTheorems {
  import opened RowMajor
  import opened TermGrid
  import opened Term
  import opened TermTheorems
  import opened FlanSpec
  import Flanterm
  import Utf8
  import Wrappers

  lemma {:induction false} FedConcat(T: Tables, s: State, a: seq<Octet>, b: seq<Octet>)
    requires TablesOk(T) && StateOk(s)
    ensures FedAll(T, s, a + b) == FedAll(T, FedAll(T, s, a), b)
  {
    hide Fed, StateOk;
    if b == [] {
      assert a + b == a;
    } else {
      var b' := b[..|b| - 1];
      FedConcat(T, s, a, b');
      assert (a + b)[..|a + b| - 1] == a + b';
    }
  }

  lemma {:induction false} FedOne(T: Tables, s: State, c: Octet)
    requires TablesOk(T) && StateOk(s)
    ensures FedAll(T, s, [c]) == Fed(T, s, c)
  {
    hide Fed, StateOk;
    assert [c][..0] == [];
    assert FedAll(T, s, []) == s;
  }

  // ----- every lookup -----

  /** In an escape sequence no UTF-8 sequence is open. */
  predicate Apart(p: Parser) { p.mode.escape ==> p.u.rem == 0 }

  /** The bytes at the end of a stream that the decoder is in the middle of. */
  function Pending(T: Tables, s: State, buf: seq<Octet>): seq<nat>
    requires TablesOk(T) && StateOk(s)
  {
    if buf == [] then []
    else
      var c, p := buf[|buf| - 1], FedAll(T, s, buf[..|buf| - 1]).p;
      if p.mode.discard || c == 0x18 || c == 0x1A || p.mode.escape then []
        else Utf8.Grown(Pending(T, s, buf[..|buf| - 1]), c)
  }

  lemma {:induction false} PendingSuffix(T: Tables, s: State, buf: seq<Octet>)
    requires TablesOk(T) && StateOk(s)
    ensures var p := Pending(T, s, buf); |p| <= |buf| && p == buf[|buf| - |p|..]
  {
    hide FedAll, StateOk, Utf8.Grown;
    if buf != [] {
      PendingSuffix(T, s, buf[..|buf| - 1]);
      GrownSuffix(buf[..|buf| - 1], Pending(T, s, buf[..|buf| - 1]), buf[|buf| - 1], buf);
    }
  }

  lemma {:induction false} GrownSuffix(s: seq<nat>, p: seq<nat>, c: nat, t: seq<nat>)
    requires |p| <= |s| && p == s[|s| - |p|..] && t == s + [c]
    ensures var q := Utf8.Grown(p, c); |q| <= |t| && q == t[|t| - |q|..]
  {
    assert t[|t| - 1..] == [c];
    assert t[|t| - (|p| + 1)..] == p + [c];
  }

  /** Handling events leaves the decoder alone, and only ESC changes the mode. */
  lemma {:induction false} HandledKeeps(T: Tables, s: State, es: seq<Utf8.Event>)
    requires StateOk(s)
    ensures var r := HandledAll(T, s, es);
      r.p.u == s.p.u && r.p.nums == s.p.nums && r.p.text == s.p.text && (s.p.select == 0 ==> r.p.select == 0)
    ensures Utf8.Plain(0x1B) !in es ==> HandledAll(T, s, es).p.mode == s.p.mode
  {
    hide FaceOk, Printed, Remembered, Shown, Charset, Control, Forgotten, Character;
    if es != [] {
      HandledKeeps(T, s, es[..|es| - 1]);
      assert es == es[..|es| - 1] + [es[|es| - 1]];
    }
  }

  /** The byte of ESC closes the decoder. */
  lemma {:induction false} PlainIsByte(u: Utf8.Utf, c: Octet)
    ensures Utf8.Plain(0x1B) in Utf8.Step(u, c).1 ==> c == 0x1B && Utf8.Step(u, c).0.rem == 0
  {
  }

  lemma {:induction false} DecodedKeeps(T: Tables, s: State, c: Octet)
    requires StateOk(s)
    ensures var r := Decoded(T, s, c).p;
      && r.u == Utf8.Step(s.p.u, c).0 && r.nums == s.p.nums && r.text == s.p.text && (s.p.select == 0 ==> r.select == 0)
      && (c != 0x1B ==> r.mode == s.p.mode) && (c == 0x1B ==> r.u.rem == 0)
  {
    hide FaceOk, HandledAll, Utf8.Step;
    Utf8.StepRem(s.p.u, c);
    PlainIsByte(s.p.u, c);
    EscClears(s.p.u);
    HandledKeeps(T, State(s.f, s.p.(u := Utf8.Step(s.p.u, c).0, select := if 0xC2 <= c <= 0xF4 then 0
      else s.p.select)), Utf8.Step(s.p.u, c).1);
  }

  lemma {:induction false} EscClears(u: Utf8.Utf)
    ensures Utf8.Step(u, 0x1B).0.rem == 0
  {
  }

  lemma {:induction false} EscapedKeeps(T: Tables, s: State, c: Octet)
    requires TablesOk(T) && StateOk(s) && s.p.u.rem == 0
    ensures Escaped(T, s, c).p.u.rem == 0
  {
    hide FaceOk, Ended, Control, Digit, Separated, Filled, Short, Initial;
  }

  /** What one byte does to the decoder. */
  lemma {:induction false} DecoderStep(T: Tables, s: State, c: Octet)
    requires TablesOk(T) && StateOk(s) && Apart(s.p)
    ensures Apart(Fed(T, s, c).p)
    ensures if s.p.mode.discard || c == 0x18 || c == 0x1A || s.p.mode.escape then Fed(T, s, c).p.u.rem == 0
      else Fed(T, s, c).p.u == Utf8.Step(s.p.u, c).0
  {
    hide FaceOk, Escaped, Decoded, Utf8.Step;
    if s.p.mode.discard || c == 0x18 || c == 0x1A {
    } else if s.p.mode.escape {
      EscapedKeeps(T, s, c);
    } else {
      DecodedKeeps(T, s, c);
    }
  }

  /** The decoder stays in step with the bytes of any stream. */
  lemma {:induction false} InStep(T: Tables, s: State, buf: seq<Octet>)
    requires TablesOk(T) && StateOk(s) && s.p.u.rem == 0
    ensures Apart(FedAll(T, s, buf).p) && Utf8.Amid(FedAll(T, s, buf).p.u, Pending(T, s, buf))
  {
    hide Fed, StateOk, Utf8.Step, Utf8.Grown, Utf8.Decode;
    if buf != [] {
      var t, c := buf[..|buf| - 1], buf[|buf| - 1];
      InStep(T, s, t);
      DecoderStep(T, FedAll(T, s, t), c);
      Utf8.StepSound(FedAll(T, s, t).p.u, Pending(T, s, t), c);
    }
  }

  /** For every stream, escape sequences included: a code point is looked up only if it is a
      Unicode scalar value, and then it is what the last bytes of the stream encode. */
  lemma {:induction false} EveryLookup(T: Tables, s: State, buf: seq<Octet>, c: Octet, cp: nat)
    requires TablesOk(T) && StateOk(s) && s.p.u.rem == 0
    ensures cp in LookedUp(FedAll(T, s, buf).p, c) ==>
      Utf8.Scalar(cp) && exists k :: 0 <= k <= |buf| && Utf8.Decode(buf[k..] + [c]) == Wrappers.Some(cp)
  {
    hide FedAll, StateOk, Utf8.Step, Utf8.Grown, Utf8.Decode, Utf8.Amid, Utf8.Glyphs, Utf8.Encode, Utf8.Scalar;
    var p := FedAll(T, s, buf).p;
    InStep(T, s, buf);
    PendingSuffix(T, s, buf);
    Utf8.StepSound(p.u, Pending(T, s, buf), c);
    Utf8.GlyphsIn(Utf8.Step(p.u, c).1, cp);
    if cp in LookedUp(p, c) {
      var k := |buf| - |Pending(T, s, buf)|;
      assert buf[k..] == Pending(T, s, buf);
      Utf8.EncodeDecode(buf[k..] + [c]);
    }
  }

  // ----- text -----

  /** The ground state: no sequence of any kind is open. */
  predicate Ground(p: Parser)
  {
    var m := p.mode;
    !m.escape && !m.control && !m.osc && !m.discard && p.u.rem == 0 && p.select == 0
  }

  /** Bytes that neither cancel nor start an escape sequence. */
  predicate IsText(c: nat) { c != 0x18 && c != 0x1A && c != 0x1B }

  /** What an event of the decoder does to the screen. */
  function Seen(T: Tables, f: Face, e: Utf8.Event): (r: Face)
    requires FaceOk(f)
    ensures Keeps(f, r)
  {
    match e
    case Glyph(cp) => Printed(T, f, cp)
    case Bad(kept) => if kept then Remembered(f, BOX, 1) else Shown(f, BOX, 1)
    case Plain(c) => if c == 0x1B then f else if c < 0x20 then Control(Forgotten(f), c)
      else if c == 0x7F then Forgotten(f) else Character(T, f, c)
  }

  function SeenAll(T: Tables, f: Face, es: seq<Utf8.Event>): (r: Face)
    requires FaceOk(f)
    ensures Keeps(f, r)
  {
    if es == [] then f else Seen(T, SeenAll(T, f, es[..|es| - 1]), es[|es| - 1])
  }

  lemma {:induction false} SeenConcat(T: Tables, f: Face, es: seq<Utf8.Event>, fs: seq<Utf8.Event>)
    requires FaceOk(f)
    ensures SeenAll(T, f, es + fs) == SeenAll(T, SeenAll(T, f, es), fs)
  {
    hide FaceOk, Seen;
    if fs == [] {
      assert es + fs == es;
    } else {
      SeenConcat(T, f, es, fs[..|fs| - 1]);
      assert (es + fs)[..|es + fs| - 1] == es + fs[..|fs| - 1];
    }
  }

  lemma {:induction false} HandledSeen(T: Tables, s: State, es: seq<Utf8.Event>)
    requires StateOk(s) && s.p.select == 0
    ensures HandledAll(T, s, es).f == SeenAll(T, s.f, es)
  {
    hide FaceOk, Printed, Remembered, Shown, Control, Forgotten, Character;
    if es != [] {
      HandledSeen(T, s, es[..|es| - 1]);
      HandledKeeps(T, s, es[..|es| - 1]);
    }
  }

  lemma {:induction false} DecodedText(T: Tables, s: State, c: Octet)
    requires StateOk(s) && s.p.select == 0 && c != 0x1B
    ensures Utf8.Step(s.p.u, c).0.rem <= 3
    ensures Decoded(T, s, c) == State(SeenAll(T, s.f, Utf8.Step(s.p.u, c).1), s.p.(u := Utf8.Step(s.p.u, c).0))
  {
    hide FaceOk, HandledAll, SeenAll, Utf8.Step;
    Utf8.StepRem(s.p.u, c);
    DecodedKeeps(T, s, c);
    HandledSeen(T, State(s.f, s.p.(u := Utf8.Step(s.p.u, c).0, select := if 0xC2 <= c <= 0xF4 then 0
      else s.p.select)), Utf8.Step(s.p.u, c).1);
  }

  /** Any bytes without escape sequences: the screen shows what the decoder yields, in order,
      and the parser does not notice. */
  lemma {:induction false} TextFed(T: Tables, s: State, buf: seq<Octet>)
    requires TablesOk(T) && StateOk(s) && !s.p.mode.escape && !s.p.mode.discard && s.p.select == 0
    requires forall i :: 0 <= i < |buf| ==> IsText(buf[i])
    ensures FedAll(T, s, buf) == State(SeenAll(T, s.f, Utf8.Run(s.p.u, buf).1), s.p.(u := Utf8.Run(s.p.u, buf).0))
  {
    hide FaceOk, ParserOk, SeenAll, Utf8.Step, Decoded;
    if buf == [] {
      SeenNone(T, s.f);
    } else {
      var t, c := buf[..|buf| - 1], buf[|buf| - 1];
      TextFed(T, s, t);
      DecodedText(T, FedAll(T, s, t), c);
      SeenConcat(T, s.f, Utf8.Run(s.p.u, t).1, Utf8.Step(Utf8.Run(s.p.u, t).0, c).1);
    }
  }

  lemma {:induction false} SeenNone(T: Tables, f: Face)
    requires FaceOk(f)
    ensures SeenAll(T, f, []) == f
  {
  }

  /** Well-formed UTF-8 text comes out as its characters, and the terminal is back in the
      ground state. */
  lemma {:induction false} EncodedFed(T: Tables, s: State, cps: seq<nat>, buf: seq<Octet>)
    requires TablesOk(T) && StateOk(s) && Ground(s.p)
    requires (forall i :: 0 <= i < |cps| ==> Utf8.Scalar(cps[i])) && buf == Utf8.EncodeAll(cps) && forall i ::
      0 <= i < |buf| ==> IsText(buf[i])
    ensures FedAll(T, s, buf).f == SeenAll(T, s.f, Utf8.ShownAll(cps))
    ensures Ground(FedAll(T, s, buf).p) && FedAll(T, s, buf).p.mode == s.p.mode
  {
    hide FaceOk, ParserOk, SeenAll, Utf8.Run;
    Utf8.TextDecodes(s.p.u, cps);
    TextFed(T, s, buf);
  }

  /** The code points of a text that are not ASCII. */
  function Wide(cps: seq<nat>): seq<nat>
  {
    if cps == [] then [] else Wide(cps[..|cps| - 1]) + (if cps[|cps| - 1] <= 0x7F then [] else [cps[|cps| - 1]])
  }

  lemma {:induction false} WideShown(cps: seq<nat>)
    ensures Utf8.Glyphs(Utf8.ShownAll(cps)) == Wide(cps)
  {
    if cps != [] {
      var rest, cp := cps[..|cps| - 1], cps[|cps| - 1];
      WideShown(rest);
      assert Utf8.ShownAll(cps)[..|Utf8.ShownAll(cps)| - 1] == Utf8.ShownAll(rest);
    }
  }

  /** Without escape sequences the lookups are the code points that the decoder yields. */
  lemma {:induction false} TextLookups(T: Tables, s: State, buf: seq<Octet>)
    requires TablesOk(T) && StateOk(s) && !s.p.mode.escape && !s.p.mode.discard && s.p.select == 0
    requires forall i :: 0 <= i < |buf| ==> IsText(buf[i])
    ensures LookedUpAll(T, s, buf) == Utf8.Glyphs(Utf8.Run(s.p.u, buf).1)
  {
    hide FaceOk, ParserOk, SeenAll, Utf8.Step, FedAll;
    if buf != [] {
      var t, c := buf[..|buf| - 1], buf[|buf| - 1];
      TextFed(T, s, t);
      TextLookups(T, s, t);
      Utf8.GlyphsConcat(Utf8.Run(s.p.u, t).1, Utf8.Step(Utf8.Run(s.p.u, t).0, c).1);
    }
  }

  /** Writing well-formed text looks up its code points outside ASCII, in order. */
  lemma {:induction false} EncodedLookups(T: Tables, s: State, cps: seq<nat>, buf: seq<Octet>)
    requires TablesOk(T) && StateOk(s) && Ground(s.p)
    requires (forall i :: 0 <= i < |cps| ==> Utf8.Scalar(cps[i])) && buf == Utf8.EncodeAll(cps) && forall i ::
      0 <= i < |buf| ==> IsText(buf[i])
    ensures LookedUpAll(T, s, buf) == Wide(cps)
  {
    hide FaceOk, ParserOk, Utf8.Run, LookedUpAll, Wide, Utf8.Glyphs;
    Utf8.TextDecodes(s.p.u, cps);
    TextLookups(T, s, buf);
    WideShown(cps);
  }

  // ----- numbers -----

  /** The value that the parser keeps of a number: itself, or if it is too large the longest
      part of it that is not, with the largest value in place of one overflow by a digit. */
  function Kept(v: nat): Word
  {
    if v <= 0xFFFF_FFFF then v
    else if v / 10 == 0x1999_9999 then 0xFFFF_FFFF
    else Kept(v / 10)
  }

  function Decimal(v: nat): (r: seq<Octet>)
    ensures r != [] && forall i :: 0 <= i < |r| ==> 0x30 <= r[i] <= 0x39
  {
    if v < 10 then [0x30 + v] else Decimal(v / 10) + [0x30 + v % 10]
  }

  /** Digits and separators. */
  predicate IsParameter(c: nat) { 0x30 <= c <= 0x39 || c == 0x3B }

  function Counted(k: Numbers, bs: seq<Octet>): (r: Numbers)
    requires NumbersOk(k) && forall i :: 0 <= i < |bs| ==> IsParameter(bs[i])
    ensures NumbersOk(r)
  {
    if bs == [] then k
    else
      var r, c := Counted(k, bs[..|bs| - 1]), bs[|bs| - 1];
      assert IsParameter(c);
      if c == 0x3B then Separated(r) else Digit(r, c - 0x30)
  }

  lemma {:induction false} CountedConcat(k: Numbers, a: seq<Octet>, b: seq<Octet>)
    requires NumbersOk(k) && (forall i :: 0 <= i < |a| ==> IsParameter(a[i])) && forall i :: 0 <= i < |b| ==>
      IsParameter(b[i])
    ensures Counted(k, a + b) == Counted(Counted(k, a), b)
  {
    hide NumbersOk, Digit, Separated;
    if b == [] {
      assert a + b == a;
    } else {
      CountedConcat(k, a, b[..|b| - 1]);
      assert (a + b)[..|a + b| - 1] == a + b[..|b| - 1];
    }
  }

  lemma {:induction false} CountedOne(k: Numbers, c: Octet)
    requires NumbersOk(k) && IsParameter(c)
    ensures Counted(k, [c]) == if c == 0x3B then Separated(k) else Digit(k, c - 0x30)
  {
    assert [c][..0] == [];
    assert Counted(k, []) == k;
  }

  lemma {:induction false} KeptExtends(v: nat)
    ensures v >= 10 ==> Kept(v) == Extended(Kept(v / 10), v % 10)
    ensures v < 10 ==> Kept(v) == Extended(0, v)
    ensures v > 0xFFFF_FFFF ==> Kept(v) > 0x1999_9999
  {
    if v > 0xFFFF_FFFF && v / 10 > 0xFFFF_FFFF {
      KeptExtends(v / 10);
    }
  }

  /** A decimal number is read as the value kept of it. */
  lemma {:induction false} DecimalRead(k: Numbers, v: nat)
    requires NumbersOk(k) && k.n < MAX_VALUES && k.values[k.n] == 0 && !k.open
    ensures Counted(k, Decimal(v)) == Numbers(k.values[k.n := Kept(v)], k.n, true)
  {
    hide Kept, Extended, Counted;
    KeptExtends(v);
    if v < 10 {
      CountedOne(k, 0x30 + v);
    } else {
      DecimalRead(k, v / 10);
      CountedConcat(k, Decimal(v / 10), [0x30 + v % 10]);
      CountedOne(Counted(k, Decimal(v / 10)), 0x30 + v % 10);
      assert k.values[k.n := Kept(v / 10)][k.n := Kept(v)] == k.values[k.n := Kept(v)];
    }
  }

  /** Once sixteen values are complete, more digits and separators change nothing. */
  lemma {:induction false} FullIgnores(k: Numbers, bs: seq<Octet>)
    requires NumbersOk(k) && k.n == MAX_VALUES && forall i :: 0 <= i < |bs| ==> IsParameter(bs[i])
    ensures Counted(k, bs) == k
  {
    if bs != [] {
      FullIgnores(k, bs[..|bs| - 1]);
    }
  }

  /** Numbers with separators between them. */
  function Listed(vs: seq<nat>): (r: seq<Octet>)
    ensures forall i :: 0 <= i < |r| ==> IsParameter(r[i])
  {
    if vs == [] then [] else if |vs| == 1 then Decimal(vs[0])
    else Listed(vs[..|vs| - 1]) + [0x3B] + Decimal(vs[|vs| - 1])
  }

  /** The values kept of a list: of the first sixteen numbers. */
  function ValuesOf(vs: seq<nat>): (r: seq<Word>)
    ensures |r| == MAX_VALUES
  {
    seq(MAX_VALUES, i requires 0 <= i => if i < |vs| then Kept(vs[i]) else 0)
  }

  function CountOf(vs: seq<nat>): nat { if |vs| < MAX_VALUES then |vs| else MAX_VALUES }

  lemma {:induction false} ValuesGrow(vs: seq<nat>)
    requires 1 <= |vs| <= MAX_VALUES
    ensures ValuesOf(vs) == ValuesOf(vs[..|vs| - 1])[|vs| - 1 := Kept(vs[|vs| - 1])]
      && ValuesOf(vs[..|vs| - 1])[|vs| - 1] == 0
  {
    hide Kept;
  }

  lemma {:induction false} ValuesFull(vs: seq<nat>)
    requires |vs| > MAX_VALUES
    ensures ValuesOf(vs) == ValuesOf(vs[..|vs| - 1])
  {
    hide Kept;
  }

  /** Any list of numbers is read as its first sixteen, each as far as it is kept. */
  lemma {:induction false} ListRead(vs: seq<nat>)
    ensures Closed(Counted(NoNumbers(), Listed(vs))) == Numbers(ValuesOf(vs), CountOf(vs), false)
    ensures vs != [] && |vs| <= MAX_VALUES ==> Counted(NoNumbers(), Listed(vs)) == Numbers(ValuesOf(vs), |vs| - 1, true)
    ensures |vs| > MAX_VALUES ==> Counted(NoNumbers(), Listed(vs)) == Numbers(ValuesOf(vs), MAX_VALUES, false)
  {
    hide Counted, Kept, ValuesOf, Decimal;
    if vs == [] {
      NothingListed();
    } else {
      var ws, v := vs[..|vs| - 1], vs[|vs| - 1];
      ListRead(ws);
      if |vs| == 1 {
        NothingListed();
        ValuesGrow(vs);
        DecimalRead(NoNumbers(), v);
      } else {
        LastRead(ws, v);
        if |vs| <= MAX_VALUES {
          ValuesGrow(vs);
        } else {
          ValuesFull(vs);
        }
      }
    }
  }

  lemma {:induction false} NothingListed()
    ensures Counted(NoNumbers(), []) == NoNumbers() && NoNumbers().values == ValuesOf([])
  {
  }

  /** One more number on the list. */
  lemma {:induction false} LastRead(ws: seq<nat>, v: nat)
    requires ws != []
    requires |ws| <= MAX_VALUES ==> Counted(NoNumbers(), Listed(ws)) == Numbers(ValuesOf(ws), |ws| - 1, true)
    requires |ws| > MAX_VALUES ==> Counted(NoNumbers(), Listed(ws)) == Numbers(ValuesOf(ws), MAX_VALUES, false)
    ensures (forall i :: 0 <= i < |Listed(ws) + [0x3B] + Decimal(v)| ==>
      IsParameter((Listed(ws) + [0x3B] + Decimal(v))[i]))
    ensures var r := Counted(NoNumbers(), Listed(ws) + [0x3B] + Decimal(v));
      if |ws| < MAX_VALUES then ValuesOf(ws)[|ws|] == 0 && r == Numbers(ValuesOf(ws)[|ws| := Kept(v)], |ws|, true)
        else r == Numbers(ValuesOf(ws), MAX_VALUES, false)
  {
    hide Counted, Kept, Decimal, Listed;
    CountedConcat(NoNumbers(), Listed(ws), [0x3B]);
    CountedOne(Counted(NoNumbers(), Listed(ws)), 0x3B);
    CountedConcat(NoNumbers(), Listed(ws) + [0x3B], Decimal(v));
    var k := Counted(NoNumbers(), Listed(ws) + [0x3B]);
    if |ws| < MAX_VALUES {
      DecimalRead(k, v);
    } else {
      FullIgnores(k, Decimal(v));
    }
  }

  // ----- control sequences -----

  /** After `ESC [`, with the parameters under way. */
  predicate InSequence(p: Parser) { p.mode.escape && p.mode.control && !p.mode.osc && !p.mode.discard }

  function Later(m: Mode): Mode { m.(offset := m.offset + 1) }

  lemma {:induction false} EscFed(T: Tables, s: State)
    requires TablesOk(T) && StateOk(s) && Ground(s.p)
    ensures Fed(T, s, 0x1B) == State(s.f, s.p.(mode := s.p.mode.(offset := 0, escape := true)))
  {
    hide FaceOk, NumbersOk, Decoded, Shown;
    Flanterm.DecodedFresh(T, s, 0x1B);
  }

  lemma {:induction false} BracketFed(T: Tables, s: State)
    requires TablesOk(T) && StateOk(s) && s.p.mode.escape && !s.p.mode.control && !s.p.mode.osc && !s.p.mode.discard
    ensures Fed(T, s, 0x5B) == State(s.f,
      s.p.(mode := Later(s.p.mode).(unhandled := false, control := true), nums := NoNumbers()))
  {
    hide FaceOk, NumbersOk, NoNumbers;
  }

  lemma {:induction false} ParameterFed(T: Tables, s: State, c: Octet)
    requires TablesOk(T) && StateOk(s) && InSequence(s.p) && IsParameter(c)
    ensures Fed(T, s, c) == State(s.f,
      s.p.(mode := Later(s.p.mode), nums := if c == 0x3B then Separated(s.p.nums) else Digit(s.p.nums, c - 0x30)))
  {
    hide FaceOk, NumbersOk, Separated, Digit, Filled, Closed, Ended, EndedMode;
  }

  /** Digits and separators only count. */
  lemma {:induction false} ParametersFed(T: Tables, s: State, bs: seq<Octet>)
    requires TablesOk(T) && StateOk(s) && InSequence(s.p) && forall i :: 0 <= i < |bs| ==> IsParameter(bs[i])
    ensures FedAll(T, s, bs) == State(s.f,
      s.p.(mode := s.p.mode.(offset := s.p.mode.offset + |bs|), nums := Counted(s.p.nums, bs)))
  {
    hide FaceOk, NumbersOk, Separated, Digit, Fed;
    if bs != [] {
      ParametersFed(T, s, bs[..|bs| - 1]);
      ParameterFed(T, FedAll(T, s, bs[..|bs| - 1]), bs[|bs| - 1]);
    }
  }

  lemma {:induction false} FinalFed(T: Tables, s: State, c: Octet)
    requires TablesOk(T) && StateOk(s) && InSequence(s.p) && FinalByte(c) && !(s.p.mode.offset == 1 && c == 0x5B)
    ensures var k := Filled(Closed(s.p.nums), c);
      Fed(T, s, c) == State(Ended(T, s.f, Later(s.p.mode), k, c),
        s.p.(mode := EndedMode(Later(s.p.mode), c), nums := k))
  {
    hide FaceOk, NumbersOk, Separated, Digit, Filled, Closed, Ended, EndedMode, Control;
  }

  /** What a control sequence does: its values are those that the parameters count up to. If
      an earlier DEC private sequence was cancelled, the terminal takes this one for it. */
  function Effect(T: Tables, f: Face, dec: bool, k: Numbers, c: nat): (r: Face)
    requires TablesOk(T) && FaceOk(f) && NumbersOk(k)
    ensures Keeps(f, r)
  {
    if !dec then Performed(T, f, c, k.values, k.n)
    else if c == SM || c == RM then DecModes(f, k.values[..k.n], c == SM)
    else f
  }

  /** Any parameters and any final byte, from the ground state and back to it. */
  lemma {:induction false} SequenceFed(T: Tables, s: State, bs: seq<Octet>, c: Octet)
    requires TablesOk(T) && StateOk(s) && Ground(s.p) && (forall i :: 0 <= i < |bs| ==> IsParameter(bs[i]))
      && FinalByte(c) && (bs == [] ==> c != 0x5B)
    ensures var r := FedAll(T, s, [0x1B, 0x5B] + bs + [c]);
      && r.f == Effect(T, s.f, s.p.mode.dec, Filled(Closed(Counted(NoNumbers(), bs)), c), c)
      && Ground(r.p) && !r.p.mode.dec
  {
    hide FaceOk, NumbersOk, Counted, Filled, Closed, Fed, FedAll, Performed, DecModes;
    EscFed(T, s);
    var s1 := Fed(T, s, 0x1B);
    BracketFed(T, s1);
    var s2 := Fed(T, s1, 0x5B);
    FedOne(T, s, 0x1B);
    FedOne(T, s1, 0x5B);
    FedConcat(T, s, [0x1B], [0x5B]);
    assert [0x1B] + [0x5B] == [0x1B, 0x5B];
    FedConcat(T, s, [0x1B, 0x5B], bs);
    ParametersFed(T, s2, bs);
    FedConcat(T, s, [0x1B, 0x5B] + bs, [c]);
    var s3 := FedAll(T, s2, bs);
    FedOne(T, s3, c);
    FinalFed(T, s3, c);
  }

  /** The values of a list of numbers with the defaults put in. */
  function Given(vs: seq<nat>, c: nat): (k: Numbers)
    ensures NumbersOk(k)
  {
    Filled(Numbers(ValuesOf(vs), CountOf(vs), false), c)
  }

  /** Parsing undoes writing: a control sequence with any list of numbers is performed with
      their values. */
  lemma {:induction false} ControlRead(T: Tables, s: State, vs: seq<nat>, c: Octet)
    requires TablesOk(T) && StateOk(s) && Ground(s.p) && FinalByte(c) && (vs == [] ==> c != 0x5B)
    ensures var r := FedAll(T, s, [0x1B, 0x5B] + Listed(vs) + [c]);
      r.f == Effect(T, s.f, s.p.mode.dec, Given(vs, c), c) && Ground(r.p) && !r.p.mode.dec
  {
    hide FaceOk, NumbersOk, Counted, Filled, Closed, FedAll, ValuesOf, Effect, Listed, Ground;
    ListRead(vs);
    ListedEmpty(vs);
    SequenceFed(T, s, Listed(vs), c);
  }

  lemma {:induction false} ListedEmpty(vs: seq<nat>)
    ensures Listed(vs) == [] <==> vs == []
  {
  }

  /** At most sixteen numbers below 2^32 arrive as they are, but for zeros where one is the
      least; the others have the default. */
  lemma {:induction false} GivenExact(vs: seq<nat>, c: nat, i: nat)
    requires |vs| <= MAX_VALUES && i < MAX_VALUES && (i < |vs| ==> vs[i] <= 0xFFFF_FFFF)
    ensures Given(vs, c).n == |vs|
    ensures Given(vs, c).values[i] == if i < |vs| && (vs[i] > 0 || ZeroDefault(c)) then vs[i]
      else if ZeroDefault(c) then 0 else 1
  {
  }

  /** Larger numbers do not come out as the largest value in general: a number whose first
      digits are too large for one more loses the rest. So a larger number can count less. */
  lemma {:induction false} KeptOverflow(v: nat)
    requires v > 0xFFFF_FFFF
    ensures Kept(v) < v
    ensures v / 10 <= 0xFFFF_FFFF ==> Kept(v) == if v / 10 == 0x1999_9999 then 0xFFFF_FFFF else v / 10
    ensures Kept(4_294_967_296) > Kept(5_000_000_000)
  {
    if v / 10 > 0xFFFF_FFFF {
      KeptOverflow(v / 10);
    }
  }

  // ----- streams -----

  /** A piece of a stream: a character, or a control sequence. */
  datatype Item = Letter(cp: nat) | Sequence(vs: seq<nat>, final: nat)

  predicate ItemOk(i: Item)
  {
    match i
    case Letter(cp) => Utf8.Scalar(cp) && IsText(cp)
    case Sequence(vs, final) => FinalByte(final) && (vs == [] ==> final != 0x5B)
  }

  lemma {:induction false} EncodeOctets(cp: nat)
    requires Utf8.Scalar(cp)
    ensures forall i :: 0 <= i < |Utf8.Encode(cp)| ==>
      Utf8.Encode(cp)[i] < 0x100 && (IsText(cp) ==> IsText(Utf8.Encode(cp)[i]))
  {
  }

  function BytesOf(i: Item): seq<Octet>
    requires ItemOk(i)
  {
    match i
    case Letter(cp) => EncodeOctets(cp); Utf8.Encode(cp)
    case Sequence(vs, final) => [0x1B, 0x5B] + Listed(vs) + [final]
  }

  function Meaning(T: Tables, f: Face, i: Item): (r: Face)
    requires TablesOk(T) && FaceOk(f)
    ensures Keeps(f, r)
  {
    match i
    case Letter(cp) => Seen(T, f, Utf8.Shown(cp))
    case Sequence(vs, final) => Performed(T, f, final, Given(vs, final).values, Given(vs, final).n)
  }

  function Stream(items: seq<Item>): seq<Octet>
    requires forall i :: 0 <= i < |items| ==> ItemOk(items[i])
  {
    if items == [] then [] else Stream(items[..|items| - 1]) + BytesOf(items[|items| - 1])
  }

  function MeaningAll(T: Tables, f: Face, items: seq<Item>): (r: Face)
    requires TablesOk(T) && FaceOk(f)
    ensures Keeps(f, r)
  {
    if items == [] then f else Meaning(T, MeaningAll(T, f, items[..|items| - 1]), items[|items| - 1])
  }

  lemma {:induction false} LetterFed(T: Tables, s: State, cp: nat)
    requires TablesOk(T) && StateOk(s) && Ground(s.p) && ItemOk(Letter(cp))
    ensures var r := FedAll(T, s, BytesOf(Letter(cp)));
      r.f == Seen(T, s.f, Utf8.Shown(cp)) && Ground(r.p) && r.p.mode == s.p.mode
  {
    hide FaceOk, ParserOk, Seen, Utf8.Run, Utf8.Scalar, Utf8.Encode, FedAll;
    EncodeOctets(cp);
    TextFed(T, s, BytesOf(Letter(cp)));
    Utf8.RunEncode(s.p.u, cp);
    SeenNone(T, s.f);
    assert [Utf8.Shown(cp)][..0] == [];
    assert SeenAll(T, s.f, [Utf8.Shown(cp)]) == Seen(T, SeenAll(T, s.f, []), Utf8.Shown(cp));
  }

  lemma {:induction false} ItemFed(T: Tables, s: State, i: Item)
    requires TablesOk(T) && StateOk(s) && Ground(s.p) && !s.p.mode.dec && ItemOk(i)
    ensures var r := FedAll(T, s, BytesOf(i)); r.f == Meaning(T, s.f, i) && Ground(r.p) && !r.p.mode.dec
  {
    hide FaceOk, ParserOk, FedAll, Performed, Seen, Given;
    match i
    case Letter(cp) => LetterFed(T, s, cp);
    case Sequence(vs, final) => ControlRead(T, s, vs, final);
  }

  /** Whole streams of characters and control sequences mean what their pieces mean, one
      after the other. */
  lemma {:induction false} StreamFed(T: Tables, s: State, items: seq<Item>)
    requires TablesOk(T) && StateOk(s) && Ground(s.p) && !s.p.mode.dec && forall i :: 0 <= i < |items| ==>
      ItemOk(items[i])
    ensures var r := FedAll(T, s, Stream(items)); r.f == MeaningAll(T, s.f, items) && Ground(r.p) && !r.p.mode.dec
  {
    hide FaceOk, ParserOk, Meaning, BytesOf, Ground, Fed, ItemOk;
    if items != [] {
      var t := items[..|items| - 1];
      StreamFed(T, s, t);
      FedConcat(T, s, Stream(t), BytesOf(items[|items| - 1]));
      ItemFed(T, FedAll(T, s, Stream(t)), items[|items| - 1]);
    }
  }

  // ----- cancelled sequences -----

  /** CAN in a DEC private sequence leaves the ground state, but the sequence is remembered:
      the next control sequence is taken for a private one, and so does nothing unless it
      sets or resets modes. */
  lemma {:induction false} CancelRemembers(T: Tables, s: State)
    requires TablesOk(T) && StateOk(s) && Ground(s.p)
    ensures var r := FedAll(T, s, [0x1B, 0x5B, 0x3F, 0x18]);
      r.f == Forgotten(s.f) && Ground(r.p) && r.p.mode.dec
  {
    hide FaceOk, NumbersOk, NoNumbers, FedAll, Fed, Forgotten;
    EscFed(T, s);
    var s1 := Fed(T, s, 0x1B);
    BracketFed(T, s1);
    var s2 := Fed(T, s1, 0x5B);
    PrivateFed(T, s2);
    var s3 := Fed(T, s2, 0x3F);
    CancelFed(T, s3);
    FedOne(T, s, 0x1B);
    FedOne(T, s1, 0x5B);
    FedOne(T, s2, 0x3F);
    FedOne(T, s3, 0x18);
    FedConcat(T, s, [0x1B], [0x5B]);
    FedConcat(T, s, [0x1B] + [0x5B], [0x3F]);
    FedConcat(T, s, [0x1B] + [0x5B] + [0x3F], [0x18]);
    assert [0x1B] + [0x5B] + [0x3F] + [0x18] == [0x1B, 0x5B, 0x3F, 0x18];
  }

  lemma {:induction false} PrivateFed(T: Tables, s: State)
    requires TablesOk(T) && StateOk(s) && InSequence(s.p) && s.p.mode.offset == 1
    ensures Fed(T, s, 0x3F) == State(s.f, s.p.(mode := Later(s.p.mode).(dec := true)))
  {
    hide FaceOk, NumbersOk, Filled, Closed, Ended, EndedMode, Control;
  }

  lemma {:induction false} CancelFed(T: Tables, s: State)
    requires TablesOk(T) && StateOk(s)
    ensures Fed(T, s, 0x18) == Cancelled(s)
  {
  }

  /** With that the control sequences after a cancelled private one are lost exactly if the
      flag is set: with it clear they are performed. */
  lemma {:induction false} LostSequence(T: Tables, s: State, vs: seq<nat>, c: Octet)
    requires TablesOk(T) && StateOk(s) && Ground(s.p) && FinalByte(c) && (vs == [] ==> c != 0x5B) && c != SM && c != RM
    ensures FedAll(T, s, [0x1B, 0x5B] + Listed(vs) + [c]).f == if s.p.mode.dec then s.f
      else Performed(T, s.f, c, Given(vs, c).values, Given(vs, c).n)
    ensures FedAll(T, s, [0x1B, 0x5B, 0x3F, 0x18] + ([0x1B, 0x5B] + Listed(vs) + [c])).f == Forgotten(s.f)
  {
    hide FaceOk, ParserOk, FedAll, Performed, Given, Listed, Forgotten;
    ControlRead(T, s, vs, c);
    CancelRemembers(T, s);
    var r := FedAll(T, s, [0x1B, 0x5B, 0x3F, 0x18]);
    ControlRead(T, r, vs, c);
    FedConcat(T, s, [0x1B, 0x5B, 0x3F, 0x18], [0x1B, 0x5B] + Listed(vs) + [c]);
  }

  // ----- operating system commands -----

  predicate InString(p: Parser) { p.mode.escape && p.mode.osc && !p.mode.oscEscape && !p.mode.discard }

  lemma {:induction false} StringFed(T: Tables, s: State, text: seq<Octet>)
    requires TablesOk(T) && StateOk(s) && InString(s.p) && s.p.text == [] && forall i :: 0 <= i < |text| ==>
      IsText(text[i]) && text[i] != 7
    ensures FedAll(T, s, text) == State(s.f,
      s.p.(mode := s.p.mode.(offset := s.p.mode.offset + |text|), text := if |text| <= OSC_SIZE then text
      else text[..OSC_SIZE]))
  {
    hide FaceOk, NumbersOk, Second, Sequenced, LeftOsc;
    if text != [] {
      StringFed(T, s, text[..|text| - 1]);
      assert text == text[..|text| - 1] + [text[|text| - 1]];
    }
  }

  /** `ESC ]`, a string and BEL: the first 256 bytes are collected, and nothing happens to
      the screen. */
  lemma {:induction false} CommandFed(T: Tables, s: State, text: seq<Octet>)
    requires TablesOk(T) && StateOk(s) && Ground(s.p) && forall i :: 0 <= i < |text| ==> IsText(text[i]) && text[i] != 7
    ensures var r := FedAll(T, s, [0x1B, 0x5D] + text + [7]);
      r.f == s.f && r.p.text == (if |text| <= OSC_SIZE then text else text[..OSC_SIZE]) && Ground(r.p)
        && r.p.mode.dec == s.p.mode.dec
  {
    hide FaceOk, NumbersOk, FedAll, Fed;
    EscFed(T, s);
    var s1 := Fed(T, s, 0x1B);
    OpenString(T, s1);
    var s2 := Fed(T, s1, 0x5D);
    StringFed(T, s2, text);
    var s3 := FedAll(T, s2, text);
    CloseString(T, s3);
    FedOne(T, s, 0x1B);
    FedOne(T, s1, 0x5D);
    FedOne(T, s3, 7);
    FedConcat(T, s, [0x1B], [0x5D]);
    assert [0x1B] + [0x5D] == [0x1B, 0x5D];
    FedConcat(T, s, [0x1B, 0x5D], text);
    FedConcat(T, s, [0x1B, 0x5D] + text, [7]);
  }

  lemma {:induction false} OpenString(T: Tables, s: State)
    requires TablesOk(T) && StateOk(s) && s.p.mode.escape && !s.p.mode.control && !s.p.mode.osc && !s.p.mode.discard
    ensures Fed(T, s, 0x5D) == State(s.f, s.p.(mode := Later(s.p.mode).(oscEscape := false, osc := true), text := []))
  {
    hide FaceOk, NumbersOk;
  }

  lemma {:induction false} CloseString(T: Tables, s: State)
    requires TablesOk(T) && StateOk(s) && InString(s.p)
    ensures Fed(T, s, 7) == State(s.f, s.p.(mode := Later(s.p.mode).(osc := false, escape := false)))
  {
    hide FaceOk, NumbersOk, Second, Sequenced, LeftOsc;
  }

  // ----- saving and restoring -----

  lemma {:induction false} PerformedSaved(T: Tables, f: Face, c: nat, vs: seq<Word>, n: nat)
    requires TablesOk(T) && FaceOk(f) && |vs| == MAX_VALUES && n <= MAX_VALUES
    ensures Performed(T, f, c, vs, n).saved == f.saved
  {
    hide FaceOk, Proper, LookFits, Travelled, Edited, Lined, Painted, Unpainted, Put, Bounded, Repeated;
    if c == REP {
      RepeatedSaved(f, if vs[0] > f.m.cols then f.m.cols else vs[0]);
    }
  }

  lemma {:induction false} SeenSaved(T: Tables, f: Face, e: Utf8.Event)
    requires FaceOk(f)
    ensures Seen(T, f, e).saved == f.saved
  {
    hide FaceOk, Proper, LookFits, Typed, LineFed, Put;
  }

  lemma {:induction false} SavedKept(T: Tables, f: Face, i: Item)
    requires TablesOk(T) && FaceOk(f)
    ensures Meaning(T, f, i).saved == f.saved
  {
    hide FaceOk, Performed, Seen, Given;
    match i
    case Letter(cp) => SeenSaved(T, f, Utf8.Shown(cp));
    case Sequence(vs, final) => PerformedSaved(T, f, final, Given(vs, final).values, Given(vs, final).n);
  }

  lemma {:induction false} RepeatedSaved(f: Face, n: nat)
    requires FaceOk(f)
    ensures Repeated(f, n).saved == f.saved
  {
    if n > 0 {
      RepeatedSaved(f, n - 1);
    }
  }

  lemma {:induction false} SavedThrough(T: Tables, f: Face, items: seq<Item>)
    requires TablesOk(T) && FaceOk(f)
    ensures MeaningAll(T, f, items).saved == f.saved
  {
    hide FaceOk, Meaning;
    if items != [] {
      SavedThrough(T, f, items[..|items| - 1]);
      SavedKept(T, MeaningAll(T, f, items[..|items| - 1]), items[|items| - 1]);
    }
  }

  lemma {:induction false} TwoBytesFed(T: Tables, s: State, c: Octet)
    requires TablesOk(T) && StateOk(s) && Ground(s.p) && !s.p.mode.dec && (c == 0x37 || c == 0x38)
    ensures var r := FedAll(T, s, [0x1B, c]);
      r.f == (if c == 0x37 then Saving(s.f) else Restoring(s.f)) && Ground(r.p) && !r.p.mode.dec
  {
    hide FaceOk, NumbersOk, FedAll, Saving, Restoring;
    EscFed(T, s);
    var s1 := Fed(T, s, 0x1B);
    FedOne(T, s, 0x1B);
    FedOne(T, s1, c);
    FedConcat(T, s, [0x1B], [c]);
    assert [0x1B] + [c] == [0x1B, c];
  }

  /** Whatever is written between `ESC 7` and `ESC 8`, the cursor, the pen and all that
      belongs to it are back afterwards. */
  lemma {:induction false} SaveRestore(T: Tables, s: State, items: seq<Item>)
    requires TablesOk(T) && StateOk(s) && Ground(s.p) && !s.p.mode.dec && forall i :: 0 <= i < |items| ==>
      ItemOk(items[i])
    ensures var r := FedAll(T, s, [0x1B, 0x37] + Stream(items) + [0x1B, 0x38]).f;
      r.look == s.f.look && r.m.x == s.f.m.x && r.m.y == s.f.m.y && r.m.pen == s.f.m.pen
  {
    hide FaceOk, ParserOk, FedAll, Stream, MeaningAll, Ground;
    TwoBytesFed(T, s, 0x37);
    var s1 := FedAll(T, s, [0x1B, 0x37]);
    StreamFed(T, s1, items);
    SavedThrough(T, s1.f, items);
    var s2 := FedAll(T, s1, Stream(items));
    TwoBytesFed(T, s2, 0x38);
    FedConcat(T, s, [0x1B, 0x37], Stream(items));
    FedConcat(T, s, [0x1B, 0x37] + Stream(items), [0x1B, 0x38]);
  }

  // ----- colours -----

  /** The same choice of colours in reverse video. */
  function Turned(p: Paint): Paint { Paint(p.look.(reverse := !p.look.reverse), Swapped(p.pen)) }

  /** Attributes that set an intensity while the colour is the default. */
  predicate DefaultIntensity(k: Look, v: nat)
  {
    ((v == 1 || v == 22) && k.primary == DEFAULT) || ((v == 5 || v == 25) && k.bg == DEFAULT)
  }

  lemma {:induction false} SwappedInk(T: Tables, p: Pen, side: bool, ofText: bool, light: bool, ink: nat)
    ensures WithInk(Swapped(p), !side, ink) == Swapped(WithInk(p, side, ink))
    ensures WithDefault(T, Swapped(p), !side, ofText, light) == Swapped(WithDefault(T, p, side, ofText, light))
  {
  }

  lemma {:induction false} TurnedTint(T: Tables, p: Paint, text: bool, k: nat, light: bool)
    requires TablesOk(T) && k < 8
    ensures Tinted(T, Turned(p), text, k, light) == Turned(Tinted(T, p, text, k, light))
    ensures Untinted(T, Turned(p), text) == Turned(Untinted(T, p, text))
  {
    hide WithInk, WithDefault, Shade, Swapped;
    SwappedInk(T, p.pen, Side(p.look, text), text, if text then p.look.bold
      else p.look.bgBold, Shade(T, k, light || if text then p.look.bold else p.look.bgBold));
  }

  /** The default that an intensity puts on is that of the side of the pen. */
  lemma {:induction false} DefaultSides(T: Tables, p: Pen, side: bool, light: bool)
    ensures WithDefault(T, Swapped(p), !side, !side, light) == Swapped(WithDefault(T, p, side, side, light)) <==>
      light && T.fgBright == T.bgBright
  {
  }

  lemma {:induction false} TurnedIntensity(T: Tables, p: Paint, text: bool, light: bool)
    requires TablesOk(T) && LookFits(p.look)
    ensures Intense(T, Turned(p), text, light) == Turned(Intense(T, p, text, light)) <==>
      Chosen(p.look, text) != DEFAULT || (light && T.fgBright == T.bgBright)
  {
    hide WithInk, WithDefault, Shade, Swapped;
    var side, colour := Side(p.look, text), Chosen(p.look, text);
    SwappedTwice(p.pen);
    if colour == DEFAULT {
      DefaultSides(T, p.pen, side, light);
    } else if colour != DIRECT {
      SwappedInk(T, p.pen, side, text, light, Shade(T, colour, light));
    }
  }

  lemma {:induction false} SwappedTwice(p: Pen)
    ensures Swapped(Swapped(p)) == p
  {
  }

  /** Reverse video exchanges the colours and nothing else, for every attribute but a change
      of intensity of a default colour: that puts the default of the other side on. */
  lemma {:induction false} ReverseCommutes(T: Tables, p: Paint, v: nat)
    requires TablesOk(T) && LookFits(p.look) && v != 0 && v != 7 && v != 27
    ensures Attributed(T, Turned(p), v) == Turned(Attributed(T, p, v)) <==>
      !DefaultIntensity(p.look, v) || ((v == 1 || v == 5) && T.fgBright == T.bgBright)
  {
    hide Intense, Tinted, Untinted, Swapped;
    if v == 1 || v == 22 {
      TurnedIntensity(T, p, true, v == 1);
    } else if v == 5 || v == 25 {
      TurnedIntensity(T, p, false, v == 5);
    } else if 30 <= v <= 37 {
      TurnedTint(T, p, true, v - 30, false);
    } else if 40 <= v <= 47 {
      TurnedTint(T, p, false, v - 40, false);
    } else if 90 <= v <= 97 {
      TurnedTint(T, p, true, v - 90, true);
    } else if 100 <= v <= 107 {
      TurnedTint(T, p, false, v - 100, true);
    } else if v == 39 || v == 49 {
      TurnedTint(T, p, v == 39, 0, false);
    }
  }

  /** Attribute 0 forgets all attributes before it that were complete. */
  lemma {:induction false} ResetForgets(T: Tables, p: Paint, q: Paint)
    requires p.look.origin == q.look.origin && p.look.charset == q.look.charset && p.look.charsets == q.look.charsets
    ensures Unpainted(T, p).look == Unpainted(T, q).look
    ensures forall c: nat :: Like(Drawn(c, Unpainted(T, p).pen), Drawn(c, Unpainted(T, q).pen))
  {
  }

  // ----- the terminal itself -----

  /** From the first byte on: a stream of characters and control sequences written to a new
      terminal leaves on the screen what its pieces mean. */
  method WriteStream(height: nat, width: nat, pen: Pen, T: Tables, items: seq<Item>)
      returns (x: Flanterm.Context, ghost f: Face)
    requires height > 0 && width > 0 && TablesOk(T) && forall i :: 0 <= i < |items| ==> ItemOk(items[i])
    ensures FaceOk(f) && f.m == Plain(height, width, seq(Rows(height, width), i => Drawn(SPACE, pen)), 0, 0, pen, 0,
      height, true, true, true)
    ensures x.Valid() && x.F() == MeaningAll(T, f, items) && Same(x.s.t.shown, Visible(x.F().m))
  {
    hide FaceOk, ParserOk, FedAll, MeaningAll, Stream, Visible, Same, ItemOk, LookedUpAll;
    x := new Flanterm.Context(height, width, pen, T);
    f := x.F();
    StreamFed(T, State(x.F(), x.P()), items);
    x.Write(Stream(items));
  }
}
