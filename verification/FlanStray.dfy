/** What malformed text, cancelled and interrupted sequences do. */
module FlanStray {
  import opened TermGrid
  import opened Term
  import opened TermTheorems
  import opened FlanSpec
  import opened FlanTheorems
  import opened FlanBytes
  import opened FlanKeys
  import Flanterm
  import Utf8

  // ----- malformed UTF-8 -----

  /** The text of bytes that the decoder takes from ground to ground. */
  lemma {:induction false} Ran(T: Tables, s: State, buf: seq<Octet>, es: seq<Utf8.Event>)
    requires Idle(T, s) && (forall i :: 0 <= i < |buf| ==> IsText(buf[i])) && Utf8.Run(s.p.u, buf).1 == es
      && Utf8.Run(s.p.u, buf).0.rem == 0
    ensures Idle(T, FedAll(T, s, buf)) && FedAll(T, s, buf).f == SeenAll(T, s.f, es)
  {
    hide FaceOk, NumbersOk, SeenAll, Utf8.Run, FedAll;
    TextFed(T, s, buf);
  }

  lemma {:induction false} SeenOne(T: Tables, f: Face, e: Utf8.Event)
    requires FaceOk(f)
    ensures SeenAll(T, f, [e]) == Seen(T, f, e)
  {
    hide FaceOk, Seen;
    assert [e][..0] == [];
    SeenNone(T, f);
  }

  lemma {:induction false} RunOne(u: Utf8.Utf, buf: seq<nat>, c: nat)
    ensures Utf8.Run(u, buf + [c]) == (var r := Utf8.Run(u, buf); var t := Utf8.Step(r.0, c); (t.0, r.1 + t.1))
    ensures Utf8.Run(u, []) == (u, [])
  {
    hide Utf8.Step;
    assert (buf + [c])[..|buf|] == buf;
  }

  lemma {:induction false} RunTwo(u: Utf8.Utf, a: nat, b: nat)
    ensures var t := Utf8.Step(u, a); var w := Utf8.Step(t.0, b); Utf8.Run(u, [a, b]) == (w.0, t.1 + w.1)
  {
    hide Utf8.Step, Utf8.Run;
    RunOne(u, [], a);
    RunOne(u, [a], b);
    assert [] + [a] == [a] && [a] + [b] == [a, b];
    assert [] + Utf8.Step(u, a).1 == Utf8.Step(u, a).1;
  }

  lemma {:induction false} RunThree(u: Utf8.Utf, a: nat, b: nat, c: nat)
    ensures var t := Utf8.Step(u, a); var w := Utf8.Step(t.0, b); var x := Utf8.Step(w.0, c);
      Utf8.Run(u, [a, b, c]) == (x.0, t.1 + w.1 + x.1)
  {
    hide Utf8.Step, Utf8.Run;
    RunTwo(u, a, b);
    RunOne(u, [a, b], c);
    assert [a, b] + [c] == [a, b, c];
  }

  lemma {:induction false} RunFour(u: Utf8.Utf, a: nat, b: nat, c: nat, d: nat)
    ensures var t := Utf8.Step(u, a); var w := Utf8.Step(t.0, b); var x := Utf8.Step(w.0, c);
      var y := Utf8.Step(x.0, d);
      Utf8.Run(u, [a, b, c, d]) == (y.0, t.1 + w.1 + x.1 + y.1)
  {
    hide Utf8.Step, Utf8.Run;
    RunThree(u, a, b, c);
    RunOne(u, [a, b, c], d);
    assert [a, b, c] + [d] == [a, b, c, d];
  }

  /** The replacement: a box, which is kept for repetition. */
  ghost predicate Replaced(f: Face, r: Face)
    requires FaceOk(f) && FaceOk(r) && f.m.rows == r.m.rows && f.m.cols == r.m.cols
  {
    f.m.x < f.m.cols ==> ShownAt(f, r, 0xFE, 1)
  }

  /** A byte that no character starts with or goes on with is a box. */
  lemma {:induction false} StrayByte(T: Tables, s: State, c: Octet)
    requires Idle(T, s) && (0x80 <= c < 0xC2 || c > 0xF4) && T.decSpecial(c) < 0
    ensures Idle(T, FedAll(T, s, [c])) && Replaced(s.f, FedAll(T, s, [c]).f)
  {
    hide NumbersOk, Proper, ShownAt, Remembered, FedAll;
    StrayIs(T, s, c);
    if s.f.m.x < s.f.m.cols {
      RememberedShown(s.f, BOX, 1);
    }
  }

  lemma {:induction false} SeenStray(T: Tables, f: Face, c: nat)
    requires FaceOk(f) && c >= 0x80 && T.decSpecial(c) < 0
    ensures Seen(T, f, Utf8.Plain(c)) == Remembered(f, BOX, 1)
  {
    hide Proper, Remembered;
  }

  lemma {:induction false} StrayIs(T: Tables, s: State, c: Octet)
    requires Idle(T, s) && (0x80 <= c < 0xC2 || c > 0xF4) && T.decSpecial(c) < 0
    ensures Idle(T, FedAll(T, s, [c])) && FedAll(T, s, [c]).f == Remembered(s.f, BOX, 1)
  {
    hide NumbersOk, Proper, Remembered, FedAll, Utf8.Run;
    RunOne(s.p.u, [], c);
    assert [] + [c] == [c];
    Ran(T, s, [c], [Utf8.Plain(c)]);
    SeenOne(T, s.f, Utf8.Plain(c));
    SeenStray(T, s.f, c);
  }

  /** In the middle of a character the decoder has shown nothing. */
  lemma {:induction false} PrefixRuns(u: Utf8.Utf, cp: nat, n: nat)
    requires Utf8.Scalar(cp) && 0 < n < |Utf8.Encode(cp)| && u.rem == 0
    ensures var r := Utf8.Run(u, Utf8.Encode(cp)[..n]); r.0.rem > 0 && r.0.cp <= 0x10FFFF && r.1 == []
  {
    hide Utf8.Run, Utf8.Step, Utf8.Encode;
    var e := Utf8.Encode(cp);
    if n == 1 {
      assert e[..1] == [] + [e[0]];
      RunOne(u, [], e[0]);
      FirstStep(u, cp);
      assert [] + Utf8.Step(u, e[0]).1 == [];
    } else if n == 2 {
      assert e[..2] == [e[0], e[1]];
      RunTwo(u, e[0], e[1]);
      SecondStep(u, cp);
    } else {
      assert e[..3] == [e[0], e[1], e[2]];
      RunThree(u, e[0], e[1], e[2]);
      ThirdStep(u, cp);
    }
  }

  lemma {:induction false} FirstStep(u: Utf8.Utf, cp: nat)
    requires Utf8.Scalar(cp) && 2 <= |Utf8.Encode(cp)| && u.rem == 0
    ensures var e := Utf8.Encode(cp); var t := Utf8.Step(u, e[0]);
      && t.1 == [] && t.0.rem == |e| - 1
      && t.0.cp == (if |e| == 2 then cp / 64 * 64 else if |e| == 3 then cp / 4096 * 4096 else cp / 0x4_0000 * 0x4_0000)
      && t.0.cp <= cp
  {
    Utf8.Digits(cp);
  }

  lemma {:induction false} SecondStep(u: Utf8.Utf, cp: nat)
    requires Utf8.Scalar(cp) && 3 <= |Utf8.Encode(cp)| && u.rem == 0
    ensures var e := Utf8.Encode(cp); var t := Utf8.Step(u, e[0]); var w := Utf8.Step(t.0, e[1]);
      && t.1 + w.1 == [] && w.0.rem == |e| - 2 && w.0.cp <= cp <= 0x10FFFF
      && w.0.cp == (if |e| == 3 then cp / 64 * 64 else cp / 4096 * 4096)
  {
    FirstStep(u, cp);
    Utf8.Digits(cp);
    var t := Utf8.Step(u, Utf8.Encode(cp)[0]).0;
    NextStep(t, cp);
  }

  lemma {:induction false} NextStep(t: Utf8.Utf, cp: nat)
    requires Utf8.Scalar(cp) && 3 <= |Utf8.Encode(cp)| == t.rem + 1
    requires t.cp == if |Utf8.Encode(cp)| == 3 then cp / 4096 * 4096 else cp / 0x4_0000 * 0x4_0000
    ensures var e := Utf8.Encode(cp); var w := Utf8.Step(t, e[1]);
      w.1 == [] && w.0 == Utf8.Utf(if |e| == 3 then cp / 64 * 64 else cp / 4096 * 4096, |e| - 2) && w.0.cp <= cp
  {
    Utf8.Digits(cp);
  }

  lemma {:induction false} ThirdStep(u: Utf8.Utf, cp: nat)
    requires Utf8.Scalar(cp) && 4 <= |Utf8.Encode(cp)| && u.rem == 0
    ensures var e := Utf8.Encode(cp); var t := Utf8.Step(u, e[0]); var w := Utf8.Step(t.0, e[1]);
      var x := Utf8.Step(w.0, e[2]);
      t.1 + w.1 + x.1 == [] && x.0.rem == 1 && x.0.cp <= 0x10FFFF
  {
    hide Utf8.Step, Utf8.Encode;
    SecondStep(u, cp);
    LastStep(cp);
  }

  lemma {:induction false} LastStep(cp: nat)
    requires Utf8.Scalar(cp) && 4 == |Utf8.Encode(cp)|
    ensures var x := Utf8.Step(Utf8.Utf(cp / 4096 * 4096, 2), Utf8.Encode(cp)[2]);
      x.1 == [] && x.0.rem == 1 && x.0.cp <= 0x10FFFF
  {
    Utf8.Digits(cp);
  }

  lemma {:induction false} CutEvents(u: Utf8.Utf, c: nat)
    requires u.rem > 0 && u.cp <= 0x10FFFF && c < 0x80
    ensures Utf8.Step(u, c).0.rem == 0 && Utf8.Step(u, c).1 == [Utf8.Bad(false), Utf8.Plain(c)]
  {
  }

  /** A character cut off anywhere by a byte of ASCII: a box as for a stray byte, but not kept
      for repetition, and the byte as if it had come alone. */
  lemma {:induction false} CutShort(T: Tables, s: State, cp: nat, n: nat, buf: seq<Octet>, c: Octet)
    requires Idle(T, s) && Utf8.Scalar(cp) && 0 < n < |Utf8.Encode(cp)| && buf == Utf8.Encode(cp)[..n]
    requires c < 0x80 && IsText(c) && T.decSpecial(0xFF) < 0
    ensures var f := FedAll(T, s, [0xFF]).f.(last := s.f.last, graphic := s.f.graphic);
      FaceOk(f) && FedAll(T, s, buf + [c]).f == FedAll(T, State(f, s.p), [c]).f
  {
    hide NumbersOk, Proper, LookFits, Typed, FedAll, Control, Utf8.Run, Utf8.Encode, Utf8.Scalar, Utf8.Step;
    PrefixRuns(s.p.u, cp, n);
    CutEvents(Utf8.Run(s.p.u, buf).0, c);
    RunOne(s.p.u, buf, c);
    PrefixText(cp, n);
    assert [] + [Utf8.Bad(false), Utf8.Plain(c)] == [Utf8.Bad(false), Utf8.Plain(c)];
    Ran(T, s, buf + [c], [Utf8.Bad(false), Utf8.Plain(c)]);
    var t := State(Shown(s.f, BOX, 1), s.p);
    StrayIs(T, s, 0xFF);
    SeenTwo(T, s.f, Utf8.Bad(false), Utf8.Plain(c));
    ByteFed(T, t, c);
  }

  lemma {:induction false} PrefixText(cp: nat, n: nat)
    requires Utf8.Scalar(cp) && n < |Utf8.Encode(cp)|
    ensures forall i :: 0 <= i < n ==> IsText(Utf8.Encode(cp)[i])
  {
  }

  lemma {:induction false} SeenTwo(T: Tables, f: Face, d: Utf8.Event, e: Utf8.Event)
    requires FaceOk(f)
    ensures SeenAll(T, f, [d, e]) == Seen(T, Seen(T, f, d), e)
  {
    hide FaceOk, Seen;
    assert [d, e][..1] == [d];
    SeenOne(T, f, d);
  }

  /** Bytes for which the decoder yields one replacement. */
  lemma {:induction false} BoxFor(T: Tables, s: State, buf: seq<Octet>)
    requires Idle(T, s) && (forall i :: 0 <= i < |buf| ==> IsText(buf[i]))
      && Utf8.Run(s.p.u, buf).1 == [Utf8.Bad(true)] && Utf8.Run(s.p.u, buf).0.rem == 0
    ensures Idle(T, FedAll(T, s, buf)) && Replaced(s.f, FedAll(T, s, buf).f)
  {
    hide NumbersOk, Proper, ShownAt, Remembered, FedAll, Utf8.Run;
    Ran(T, s, buf, [Utf8.Bad(true)]);
    SeenOne(T, s.f, Utf8.Bad(true));
    if s.f.m.x < s.f.m.cols {
      RememberedShown(s.f, BOX, 1);
    }
  }

  /** Three bytes for a code point below 0x800: one box. */
  lemma {:induction false} OverlongThree(T: Tables, s: State, b: Octet, c: Octet)
    requires Idle(T, s) && 0x80 <= b < 0xA0 && Utf8.Tail(c)
    ensures Idle(T, FedAll(T, s, [0xE0, b, c])) && Replaced(s.f, FedAll(T, s, [0xE0, b, c]).f)
  {
    hide FaceOk, NumbersOk, Replaced, FedAll, Utf8.Step, Utf8.Run;
    RunThree(s.p.u, 0xE0, b, c);
    OverlongEvents(s.p.u, b, c);
    BoxFor(T, s, [0xE0, b, c]);
  }

  lemma {:induction false} OverlongEvents(u: Utf8.Utf, b: nat, c: nat)
    requires 0x80 <= b < 0xA0 && Utf8.Tail(c) && u.rem == 0
    ensures var t := Utf8.Step(u, 0xE0); var w := Utf8.Step(t.0, b); var x := Utf8.Step(w.0, c);
      x.0.rem == 0 && t.1 + w.1 + x.1 == [Utf8.Bad(true)]
  {
  }

  /** Four bytes for a code point below 0x10000: one box. */
  lemma {:induction false} OverlongFour(T: Tables, s: State, b: Octet, c: Octet, d: Octet)
    requires Idle(T, s) && 0x80 <= b < 0x90 && Utf8.Tail(c) && Utf8.Tail(d)
    ensures Idle(T, FedAll(T, s, [0xF0, b, c, d])) && Replaced(s.f, FedAll(T, s, [0xF0, b, c, d]).f)
  {
    hide FaceOk, NumbersOk, Replaced, FedAll, Utf8.Step, Utf8.Run;
    RunFour(s.p.u, 0xF0, b, c, d);
    LongEvents(s.p.u, b, c, d);
    BoxFor(T, s, [0xF0, b, c, d]);
  }

  lemma {:induction false} LongEvents(u: Utf8.Utf, b: nat, c: nat, d: nat)
    requires 0x80 <= b < 0x90 && Utf8.Tail(c) && Utf8.Tail(d) && u.rem == 0
    ensures var t := Utf8.Step(u, 0xF0); var w := Utf8.Step(t.0, b); var x := Utf8.Step(w.0, c);
      var y := Utf8.Step(x.0, d);
      y.0.rem == 0 && t.1 + w.1 + x.1 + y.1 == [Utf8.Bad(true)]
  {
  }

  /** A surrogate: one box, for its last byte. */
  lemma {:induction false} Surrogate(T: Tables, s: State, b: Octet, c: Octet)
    requires Idle(T, s) && 0xA0 <= b <= 0xBF && Utf8.Tail(c) && T.decSpecial(c) < 0
    ensures Idle(T, FedAll(T, s, [0xED, b, c])) && Replaced(s.f, FedAll(T, s, [0xED, b, c]).f)
  {
    hide NumbersOk, Proper, ShownAt, Remembered, FedAll, Utf8.Step, Utf8.Run, Character;
    RunThree(s.p.u, 0xED, b, c);
    SurrogateEvents(s.p.u, b, c);
    Ran(T, s, [0xED, b, c], [Utf8.Plain(c)]);
    SeenOne(T, s.f, Utf8.Plain(c));
    SeenStray(T, s.f, c);
    if s.f.m.x < s.f.m.cols {
      RememberedShown(s.f, BOX, 1);
    }
  }

  lemma {:induction false} SurrogateEvents(u: Utf8.Utf, b: nat, c: nat)
    requires 0xA0 <= b <= 0xBF && Utf8.Tail(c) && u.rem == 0
    ensures var t := Utf8.Step(u, 0xED); var w := Utf8.Step(t.0, b); var x := Utf8.Step(w.0, c);
      x.0.rem == 0 && t.1 + w.1 + x.1 == [Utf8.Plain(c)]
  {
  }

  /** Four bytes for a number above 0x10FFFF: nothing at all is shown. */
  lemma {:induction false} TooLarge(T: Tables, s: State, b: Octet, c: Octet, d: Octet)
    requires Idle(T, s) && 0x90 <= b <= 0xBF && Utf8.Tail(c) && Utf8.Tail(d)
    ensures Idle(T, FedAll(T, s, [0xF4, b, c, d])) && FedAll(T, s, [0xF4, b, c, d]).f == s.f
  {
    hide NumbersOk, FaceOk, FedAll, Utf8.Step, Utf8.Run;
    RunFour(s.p.u, 0xF4, b, c, d);
    LargeEvents(s.p.u, b, c, d);
    Ran(T, s, [0xF4, b, c, d], []);
    SeenNone(T, s.f);
  }

  lemma {:induction false} LargeEvents(u: Utf8.Utf, b: nat, c: nat, d: nat)
    requires 0x90 <= b <= 0xBF && Utf8.Tail(c) && Utf8.Tail(d) && u.rem == 0
    ensures var t := Utf8.Step(u, 0xF4); var w := Utf8.Step(t.0, b); var x := Utf8.Step(w.0, c);
      var y := Utf8.Step(x.0, d);
      y.0.rem == 0 && t.1 + w.1 + x.1 + y.1 == []
  {
  }

  // ----- cancelled and interrupted sequences -----

  /** CAN and SUB end whatever is under way, after any stream, and do nothing else. */
  lemma {:induction false} CancelAnywhere(T: Tables, s: State, buf: seq<Octet>, c: Octet)
    requires TablesOk(T) && StateOk(s) && (c == 0x18 || c == 0x1A)
    ensures var r := FedAll(T, s, buf + [c]);
      Ground(r.p) && r.f == FedAll(T, s, buf).f.(graphic := false)
  {
    hide FaceOk, NumbersOk, FedAll;
    FedConcat(T, s, buf, [c]);
    FedOne(T, FedAll(T, s, buf), c);
  }

  lemma {:induction false} ControlFed(T: Tables, s: State, c: Octet)
    requires TablesOk(T) && StateOk(s) && InSequence(s.p) && c < 0x20 && c !in [0x18, 0x1A, 0x1B]
    ensures Fed(T, s, c) == State(Control(s.f, c), s.p.(mode := Later(s.p.mode)))
  {
    hide FaceOk, NumbersOk, Control, Filled, Closed, Ended, EndedMode, Digit, Separated;
  }

  lemma {:induction false} ControlQuiet(f: Face, c: nat)
    requires FaceOk(f)
    ensures Control(Forgotten(f), c).(graphic := f.graphic) == Control(f, c)
  {
    hide FaceOk, LookFits, Put, LineFed;
  }

  /** The bytes after `ESC [` and parameters. */
  lemma {:induction false} OpenFed(T: Tables, s: State, bs: seq<Octet>)
    requires Idle(T, s) && forall i :: 0 <= i < |bs| ==> IsParameter(bs[i])
    ensures var r := FedAll(T, s, [0x1B, 0x5B] + bs);
      && InSequence(r.p) && r == State(s.f, r.p) && r.p.nums == Counted(NoNumbers(), bs) && r.p.mode.offset == 1 + |bs|
      && r.p == s.p.(mode := r.p.mode, nums := r.p.nums)
      && r.p.mode == s.p.mode.(escape := true, control := true, unhandled := false, offset := r.p.mode.offset)
  {
    hide FaceOk, NumbersOk, Counted, Fed, FedAll;
    EscFed(T, s);
    var s1 := Fed(T, s, 0x1B);
    BracketFed(T, s1);
    var s2 := Fed(T, s1, 0x5B);
    FedOne(T, s, 0x1B);
    FedOne(T, s1, 0x5B);
    FedConcat(T, s, [0x1B], [0x5B]);
    assert [0x1B] + [0x5B] == [0x1B, 0x5B];
    FedConcat(T, s, [0x1B, 0x5B], bs);
    ParametersFed(T, s2, bs);
  }

  /** A control character inside a sequence acts at once, and the sequence goes on as if it
      had come before it. */
  lemma {:induction false} ControlInside(T: Tables, s: State, bs: seq<Octet>, c: Octet, cs: seq<Octet>, final: Octet)
    requires Idle(T, s) && (forall i :: 0 <= i < |bs| ==> IsParameter(bs[i]))
      && (forall i :: 0 <= i < |cs| ==> IsParameter(cs[i])) && FinalByte(final) && final != 0x5B
    requires c < 0x20 && c !in [0x18, 0x1A, 0x1B]
    ensures var f := FedAll(T, s, [c]).f.(graphic := s.f.graphic);
      FaceOk(f) && FedAll(T, s, [0x1B, 0x5B] + bs + [c] + cs + [final]).f ==
        FedAll(T, State(f, s.p), [0x1B, 0x5B] + (bs + cs) + [final]).f
  {
    hide FaceOk, NumbersOk, Counted, Fed, FedAll, Control, Filled, Closed, Performed, Forgotten;
    ByteFed(T, s, c);
    ControlQuiet(s.f, c);
    var f := Control(s.f, c);
    SameFace(FedAll(T, s, [c]).f, s.f.graphic);
    OpenFed(T, s, bs);
    var s1 := FedAll(T, s, [0x1B, 0x5B] + bs);
    ControlFed(T, s1, c);
    FedOne(T, s1, c);
    FedConcat(T, s, [0x1B, 0x5B] + bs, [c]);
    var s2 := FedAll(T, s, [0x1B, 0x5B] + bs + [c]);
    ParametersFed(T, s2, cs);
    FedConcat(T, s, [0x1B, 0x5B] + bs + [c], cs);
    var s3 := FedAll(T, s2, cs);
    FinalFed(T, s3, final);
    FedOne(T, s3, final);
    FedConcat(T, s, [0x1B, 0x5B] + bs + [c] + cs, [final]);
    CountedConcat(NoNumbers(), bs, cs);
    SequenceFed(T, State(f, s.p), bs + cs, final);
  }

  lemma {:induction false} SameFace(f: Face, g: bool)
    requires FaceOk(f)
    ensures FaceOk(f.(graphic := g))
  {
  }

  /** `ESC [ [` and one more byte: nothing. */
  lemma {:induction false} FunctionKey(T: Tables, s: State, c: Octet)
    requires Idle(T, s)
    ensures var r := FedAll(T, s, [0x1B, 0x5B, 0x5B, c]); Ground(r.p) && r.f == s.f.(graphic := false)
  {
    hide FaceOk, NumbersOk, FedAll, Counted;
    assert [0x1B, 0x5B] + [] == [0x1B, 0x5B];
    OpenFed(T, s, []);
    var s1 := FedAll(T, s, [0x1B, 0x5B]);
    FedOne(T, s1, 0x5B);
    FedConcat(T, s, [0x1B, 0x5B], [0x5B]);
    var s2 := FedAll(T, s1, [0x5B]);
    FedOne(T, s2, c);
    FedConcat(T, s, [0x1B, 0x5B] + [0x5B], [c]);
    assert [0x1B, 0x5B] + [0x5B] + [c] == [0x1B, 0x5B, 0x5B, c];
  }

  /** Final bytes without a meaning on the screen do nothing. */
  lemma {:induction false} OtherFinal(T: Tables, s: State, vs: seq<nat>, c: Octet)
    requires Idle(T, s) && FinalByte(c) && c != 0x5B
    requires c !in [0x40, 0x41, 0x42, 0x43, 0x44, 0x45, 0x46, 0x47, 0x48, 0x4A, 0x4B, 0x4C, 0x4D, 0x50, 0x53, 0x54,
      0x58,
      0x60, 0x61, 0x62, 0x64, 0x65, 0x66, 0x68, 0x6C, 0x6D, 0x72, 0x73, 0x75]
    ensures FedAll(T, s, Csi(vs, c)).f == s.f
  {
    hide FedAll, Given, Idle, Csi, Ground, ParserOk, FaceOk;
    Sent(T, s, vs, c);
    IdleFace(T, s);
  }

  // ----- operating system commands -----

  /** A command that ends with ESC and a backslash. */
  lemma {:induction false} CommandEnds(T: Tables, s: State, text: seq<Octet>)
    requires Idle(T, s) && forall i :: 0 <= i < |text| ==> IsText(text[i]) && text[i] != 7
    ensures var r := FedAll(T, s, [0x1B, 0x5D] + text + [0x1B, 0x5C]);
      r.f == s.f && r.p.text == (if |text| <= OSC_SIZE then text else text[..OSC_SIZE]) && Idle(T, r)
  {
    hide FaceOk, NumbersOk, FedAll, Fed;
    EscFed(T, s);
    var s1 := Fed(T, s, 0x1B);
    OpenString(T, s1);
    var s2 := Fed(T, s1, 0x5D);
    StringFed(T, s2, text);
    var s3 := FedAll(T, s2, text);
    StringEnds(T, s3);
    var s4 := Fed(T, s3, 0x1B);
    FedOne(T, s, 0x1B);
    FedOne(T, s1, 0x5D);
    FedOne(T, s3, 0x1B);
    FedOne(T, s4, 0x5C);
    FedConcat(T, s, [0x1B], [0x5D]);
    assert [0x1B] + [0x5D] == [0x1B, 0x5D] && [0x1B] + [0x5C] == [0x1B, 0x5C];
    FedConcat(T, s, [0x1B, 0x5D], text);
    FedConcat(T, s, [0x1B, 0x5D] + text, [0x1B, 0x5C]);
    FedConcat(T, s3, [0x1B], [0x5C]);
  }

  lemma {:induction false} StringEnds(T: Tables, s: State)
    requires TablesOk(T) && StateOk(s) && InString(s.p)
    ensures Fed(T, s, 0x1B) == State(s.f, s.p.(mode := Later(s.p.mode).(oscEscape := true)))
    ensures Fed(T, Fed(T, s, 0x1B), 0x5C) == State(s.f,
      s.p.(mode := Later(Later(s.p.mode)).(osc := false, escape := false)))
  {
    hide FaceOk, NumbersOk, Second, Sequenced, LeftOsc;
  }
}
