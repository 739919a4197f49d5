/** What the bytes of select graphic rendition do to the pen. */
module FlanColours {
  import opened Term
  import opened TermTheorems
  import opened FlanSpec
  import opened FlanTheorems
  import opened FlanBytes

  const M: Octet := 0x6D

  lemma {:induction false} ValuesRead(vs: seq<nat>)
    requires Small(vs)
    ensures Given(vs, M).n == |vs| && Given(vs, M).values[..|vs|] == vs
  {
    hide Given;
    var k := Given(vs, M);
    GivenExact(vs, M, 0);
    forall i | 0 <= i < |vs| ensures k.values[..|vs|][i] == vs[i] {
      GivenExact(vs, M, i);
    }
  }

  /** Only the pen and the attributes change. */
  lemma {:induction false} SgrSent(T: Tables, s: State, vs: seq<nat>)
    requires Idle(T, s) && Small(vs)
    ensures TablesOk(T) && FaceOk(s.f) && Idle(T, FedAll(T, s, Csi(vs, M)))
    ensures var p, r := PaintOf(s.f), FedAll(T, s, Csi(vs, M)).f;
      && r == s.f.(look := r.look, m := s.f.m.(pen := r.m.pen))
      && PaintOf(r) == if vs == [] then Unpainted(T, p) else Painted(T, p, Given(vs, M).values[..|vs|])
  {
    hide FedAll, Given, Idle, Small, Painted, Unpainted, LookFits, Proper;
    Sent(T, s, vs, M);
    ValuesRead(vs);
    IdleFace(T, s);
  }

  lemma {:induction false} OnePainted(T: Tables, p: Paint, vs: seq<Word>, v: nat)
    requires TablesOk(T) && LookFits(p.look) && |vs| == 1 && vs[0] == v && v != 38 && v != 48
    ensures Painted(T, p, vs) == Attributed(T, p, v)
  {
    hide Attributed;
    assert vs[1..] == [];
  }

  /** One number that stands for itself. */
  lemma {:induction false} OneSent(T: Tables, s: State, v: nat)
    requires Idle(T, s) && v <= 0xFFFF_FFFF && v != 38 && v != 48
    ensures TablesOk(T) && FaceOk(s.f)
    ensures var r := FedAll(T, s, Csi([v], M)).f;
      r == s.f.(look := r.look, m := s.f.m.(pen := r.m.pen)) && PaintOf(r) == Attributed(T, PaintOf(s.f), v)
  {
    hide FedAll, Given, Idle, Painted, Attributed, Proper, Csi;
    SgrSent(T, s, [v]);
    ValuesRead([v]);
    OnePainted(T, PaintOf(s.f), Given([v], M).values[..1], v);
  }

  /** The pen with its foreground or its background replaced. */
  function Front(p: Pen, ink: nat): Pen { Pen(ink, p.bg, false, p.bgDefault) }

  function Back(p: Pen, ink: nat): Pen { Pen(p.fg, ink, p.fgDefault, false) }

  /** 30 to 37 and 90 to 97: colour v of the text, which in reverse video is the background
      of the pen. Bold text is bright. */
  lemma {:induction false} TextColour(T: Tables, s: State, k: nat, bright: bool)
    requires Idle(T, s) && k < 8
    ensures TablesOk(T)
    ensures var f, r := s.f, FedAll(T, s, Csi([if bright then 90 + k else 30 + k], M)).f;
      var ink := if bright || f.look.bold then T.bright[k] else T.ansi[k];
      r == f.(look := f.look.(primary := k),
        m := f.m.(pen := if f.look.reverse then Back(f.m.pen, ink) else Front(f.m.pen, ink)))
  {
    hide FedAll, Idle, Csi, Proper;
    OneSent(T, s, if bright then 90 + k else 30 + k);
  }

  /** 40 to 47 and 100 to 107: the background likewise, bright while blinking is on. */
  lemma {:induction false} BackColour(T: Tables, s: State, k: nat, bright: bool)
    requires Idle(T, s) && k < 8
    ensures TablesOk(T)
    ensures var f, r := s.f, FedAll(T, s, Csi([if bright then 100 + k else 40 + k], M)).f;
      var ink := if bright || f.look.bgBold then T.bright[k] else T.ansi[k];
      r == f.(look := f.look.(bg := k),
        m := f.m.(pen := if f.look.reverse then Front(f.m.pen, ink) else Back(f.m.pen, ink)))
  {
    hide FedAll, Idle, Csi, Proper;
    OneSent(T, s, if bright then 100 + k else 40 + k);
  }

  /** 39: the default colour of text. */
  lemma {:induction false} TextDefault(T: Tables, s: State)
    requires Idle(T, s)
    ensures var f, r := s.f, FedAll(T, s, Csi([39], M)).f;
      var ink := if f.look.bold then T.fgBright else T.fg;
      r == f.(look := f.look.(primary := -1),
        m := f.m.(pen := if f.look.reverse then Back(f.m.pen, ink) else Front(f.m.pen, ink)))
  {
    hide FedAll, Idle, Csi, Proper;
    OneSent(T, s, 39);
  }

  /** 49: the default background, which shows what is under the terminal. */
  lemma {:induction false} BackDefault(T: Tables, s: State)
    requires Idle(T, s)
    ensures var f, r := s.f, FedAll(T, s, Csi([49], M)).f; var p := f.m.pen;
      && r == f.(look := f.look.(bg := -1), m := f.m.(pen := r.m.pen))
      && (!f.look.reverse && f.look.bgBold ==> r.m.pen == Back(p, T.bgBright))
      && (!f.look.reverse && !f.look.bgBold ==> r.m.pen == p.(bgDefault := true))
      && (f.look.reverse && f.look.bgBold ==> r.m.pen == Front(p, T.bgBright))
      && (f.look.reverse && !f.look.bgBold ==> r.m.pen == p.(fgDefault := true))
  {
    hide FedAll, Idle, Csi, Proper;
    OneSent(T, s, 49);
  }

  /** 1 and 22: bold text on and off. One of the eight colours becomes bright or not; with
      the default colour the default of the side of the pen in use is put on. */
  lemma {:induction false} Bold(T: Tables, s: State, on: bool)
    requires Idle(T, s)
    ensures TablesOk(T) && FaceOk(s.f)
    ensures var f, r := s.f, FedAll(T, s, Csi([if on then 1 else 22], M)).f; var p, k := f.m.pen, f.look.primary;
      && r == f.(look := f.look.(bold := on), m := f.m.(pen := r.m.pen))
      && (k == -2 ==> r.m.pen == p)
      && (k >= 0 ==> var ink := if on then T.bright[k] else T.ansi[k];
           r.m.pen == if f.look.reverse then Back(p, ink) else Front(p, ink))
      && (k == -1 && !f.look.reverse ==> r.m.pen == Front(p, if on then T.fgBright else T.fg))
      && (k == -1 && f.look.reverse ==> r.m.pen == if on then Back(p, T.bgBright) else p.(bgDefault := true))
  {
    hide FedAll, Idle, Csi, Proper;
    OneSent(T, s, if on then 1 else 22);
  }

  /** 5 and 25: the same for the background. */
  lemma {:induction false} Blink(T: Tables, s: State, on: bool)
    requires Idle(T, s)
    ensures TablesOk(T) && FaceOk(s.f)
    ensures var f, r := s.f, FedAll(T, s, Csi([if on then 5 else 25], M)).f; var p, k := f.m.pen, f.look.bg;
      && r == f.(look := f.look.(bgBold := on), m := f.m.(pen := r.m.pen))
      && (k == -2 ==> r.m.pen == p)
      && (k >= 0 ==> var ink := if on then T.bright[k] else T.ansi[k];
           r.m.pen == if f.look.reverse then Front(p, ink) else Back(p, ink))
      && (k == -1 && !f.look.reverse ==> r.m.pen == if on then Back(p, T.bgBright) else p.(bgDefault := true))
      && (k == -1 && f.look.reverse ==> r.m.pen == Front(p, if on then T.fgBright else T.fg))
  {
    hide FedAll, Idle, Csi, Proper;
    OneSent(T, s, if on then 5 else 25);
  }

  /** 7 and 27: reverse video exchanges the sides of the pen, once. */
  lemma {:induction false} Reverse(T: Tables, s: State, on: bool)
    requires Idle(T, s)
    ensures var f, r := s.f, FedAll(T, s, Csi([if on then 7 else 27], M)).f; var p := f.m.pen;
      && r == f.(look := f.look.(reverse := on), m := f.m.(pen := r.m.pen))
      && r.m.pen == if f.look.reverse == on then p else Pen(p.bg, p.fg, p.bgDefault, p.fgDefault)
  {
    hide FedAll, Idle, Csi, Proper;
    OneSent(T, s, if on then 7 else 27);
  }

  /** 0, or no number: no attributes, the default text colour on the default background. */
  lemma {:induction false} Plainly(T: Tables, s: State, vs: seq<nat>)
    requires Idle(T, s) && (vs == [] || vs == [0])
    ensures var f, r := s.f, FedAll(T, s, Csi(vs, M)).f; var k := f.look;
      && r == f.(look := Look(false, false, false, k.origin, k.charset, k.charsets, -1, -1), m := f.m.(pen := r.m.pen))
      && r.m.pen.fg == T.fg && !r.m.pen.fgDefault && r.m.pen.bgDefault
  {
    hide FedAll, Idle, Csi, Proper, Given, Painted;
    if vs == [] {
      SgrSent(T, s, vs);
    } else {
      OneSent(T, s, 0);
    }
  }

  /** Other numbers do nothing. */
  lemma {:induction false} NoAttribute(T: Tables, s: State, v: nat)
    requires Idle(T, s) && v <= 0xFFFF_FFFF && v !in [0, 1, 5, 7, 22, 25, 27, 38, 39, 48, 49]
    requires !(30 <= v <= 37 || 40 <= v <= 47 || 90 <= v <= 97 || 100 <= v <= 107)
    ensures FedAll(T, s, Csi([v], M)).f == s.f
  {
    hide FedAll, Idle, Csi, Proper;
    OneSent(T, s, v);
  }

  lemma {:induction false} IndexPainted(T: Tables, p: Paint, vs: seq<Word>)
    requires TablesOk(T) && LookFits(p.look) && |vs| == 3 && vs[0] in [38, 48] && vs[1] == 5
    ensures Painted(T, p, vs) == Indexed(T, p, vs[0] == 38, vs[2])
  {
    hide Indexed;
    assert vs[3..] == [];
  }

  /** `38;5;k` and `48;5;k`: colour k of 256, of which the first sixteen are the eight and
      the eight bright ones, whatever the intensity. */
  lemma {:induction false} ColourOf256(T: Tables, s: State, text: bool, k: nat)
    requires Idle(T, s) && k < 256
    ensures TablesOk(T)
    ensures var f, r := s.f, FedAll(T, s, Csi([if text then 38 else 48, 5, k], M)).f;
      var ink := if k < 8 then T.ansi[k] else if k < 16 then T.bright[k - 8] else T.convert(T.cube[k - 16]);
      && r == f.(look := r.look, m := f.m.(pen := r.m.pen))
      && r.look == (if text then f.look.(primary := -2) else f.look.(bg := -2))
      && r.m.pen == if text != f.look.reverse then Front(f.m.pen, ink) else Back(f.m.pen, ink)
  {
    hide FedAll, Idle, Csi, Proper, Given, Painted;
    var vs := [if text then 38 else 48, 5, k];
    SgrSent(T, s, vs);
    ValuesRead(vs);
    IndexPainted(T, PaintOf(s.f), Given(vs, M).values[..3]);
  }

  /** A larger index does nothing. */
  lemma {:induction false} NoColour(T: Tables, s: State, text: bool, k: nat)
    requires Idle(T, s) && 256 <= k <= 0xFFFF_FFFF
    ensures FedAll(T, s, Csi([if text then 38 else 48, 5, k], M)).f == s.f
  {
    hide FedAll, Idle, Csi, Proper, Given, Painted;
    var vs := [if text then 38 else 48, 5, k];
    SgrSent(T, s, vs);
    ValuesRead(vs);
    IndexPainted(T, PaintOf(s.f), Given(vs, M).values[..3]);
  }

  lemma {:induction false} DirectPainted(T: Tables, p: Paint, vs: seq<Word>)
    requires TablesOk(T) && LookFits(p.look) && |vs| == 5 && vs[0] in [38, 48] && vs[1] == 2
    ensures Painted(T, p, vs) == Dyed(p, vs[0] == 38, T.convert(Rgb(vs[2], vs[3], vs[4])))
  {
    hide Dyed, Rgb;
    assert vs[5..] == [];
  }

  /** `38;2;r;g;b` and `48;2;r;g;b`: a colour by its components. */
  lemma {:induction false} DirectColour(T: Tables, s: State, text: bool, red: Octet, green: Octet, blue: Octet)
    requires Idle(T, s)
    ensures var f, r := s.f, FedAll(T, s, Csi([if text then 38 else 48, 2, red, green, blue], M)).f;
      var ink := T.convert(red * 65536 + green * 256 + blue);
      && r == f.(look := r.look, m := f.m.(pen := r.m.pen))
      && r.look == (if text then f.look.(primary := -2) else f.look.(bg := -2))
      && r.m.pen == if text != f.look.reverse then Front(f.m.pen, ink) else Back(f.m.pen, ink)
  {
    hide FedAll, Idle, Csi, Proper, Given, Painted;
    var vs := [if text then 38 else 48, 2, red, green, blue];
    SgrSent(T, s, vs);
    ValuesRead(vs);
    DirectPainted(T, PaintOf(s.f), Given(vs, M).values[..5]);
  }

  /** A whole attribute. */
  predicate Whole(vs: seq<nat>)
  {
    || (|vs| == 1 && vs[0] != 38 && vs[0] != 48)
    || (|vs| == 3 && (vs[0] == 38 || vs[0] == 48) && vs[1] == 5)
    || (|vs| == 5 && (vs[0] == 38 || vs[0] == 48) && vs[1] == 2)
  }

  lemma {:induction false} PaintedSplits(T: Tables, p: Paint, vs: seq<Word>, ws: seq<Word>)
    requires TablesOk(T) && LookFits(p.look) && Whole(vs)
    ensures Painted(T, p, vs + ws) == Painted(T, Painted(T, p, vs), ws)
  {
    hide Attributed, Indexed, Dyed, Rgb;
    var us := vs + ws;
    assert us[|vs|..] == ws;
    if |vs| == 1 {
      OnePainted(T, p, vs, vs[0]);
    } else if |vs| == 3 {
      IndexPainted(T, p, vs);
    } else {
      DirectPainted(T, p, vs);
    }
  }

  /** Several attributes in one sequence are the same as one sequence each. */
  lemma {:induction false} OneByOne(T: Tables, s: State, vs: seq<nat>, ws: seq<nat>)
    requires Idle(T, s) && Small(vs + ws) && Whole(vs) && ws != []
    ensures FedAll(T, s, Csi(vs + ws, M)).f == FedAll(T, FedAll(T, s, Csi(vs, M)), Csi(ws, M)).f
  {
    hide FedAll, Idle, Csi, Proper, Given, Painted;
    SmallHalves(vs, ws);
    IdleFace(T, s);
    SgrSent(T, s, vs);
    var s1 := FedAll(T, s, Csi(vs, M));
    SgrSent(T, s1, ws);
    SgrSent(T, s, vs + ws);
    ValuesRead(vs);
    ValuesRead(ws);
    ValuesRead(vs + ws);
    var a, b := Given(vs, M).values[..|vs|], Given(ws, M).values[..|ws|];
    assert Given(vs + ws, M).values[..|vs + ws|] == a + b;
    PaintedSplits(T, PaintOf(s.f), a, b);
  }

  lemma {:induction false} SmallHalves(vs: seq<nat>, ws: seq<nat>)
    requires Small(vs + ws)
    ensures Small(vs) && Small(ws)
  {
    forall i | 0 <= i < |vs| ensures vs[i] <= 0xFFFF_FFFF {
      assert (vs + ws)[i] == vs[i];
    }
    forall i | 0 <= i < |ws| ensures ws[i] <= 0xFFFF_FFFF {
      assert (vs + ws)[|vs| + i] == ws[i];
    }
  }

  /** An attribute that is cut off does nothing. */
  lemma {:induction false} CutOff(T: Tables, s: State, vs: seq<nat>)
    requires Idle(T, s) && Small(vs) && vs != [] && (vs[0] == 38 || vs[0] == 48)
    requires |vs| == 1 || (vs[1] == 5 && |vs| < 3) || (vs[1] == 2 && |vs| < 5)
    ensures FedAll(T, s, Csi(vs, M)).f == s.f
  {
    hide FedAll, Idle, Csi, Proper, Given;
    SgrSent(T, s, vs);
    ValuesRead(vs);
  }
}
