/** What control characters, two-byte escapes and text do, told by the cursor and by cells. */
module FlanKeys {
  import opened RowMajor
  import opened TermGrid
  import opened Term
  import opened TermTheorems
  import opened FlanScreen
  import opened FlanCells
  import opened FlanSpec
  import opened FlanTheorems
  import opened FlanBytes
  import Flanterm
  import Utf8

  // ----- control characters -----

  /** A byte of ASCII between sequences. */
  lemma {:induction false} ByteFed(T: Tables, s: State, c: Octet)
    requires Idle(T, s) && c < 0x80 && c !in [0x18, 0x1A, 0x1B]
    ensures var r := FedAll(T, s, [c]);
      Idle(T, r) && r.f == if c < 0x20 then Control(Forgotten(s.f), c) else if c == 0x7F then Forgotten(s.f)
        else Character(T, s.f, c)
  {
    hide FaceOk, NumbersOk, Decoded, Control, Forgotten, Character, FedAll;
    FedOne(T, s, c);
    Flanterm.DecodedFresh(T, s, c);
  }

  /** Backspace: one column left, if there is one. */
  lemma {:induction false} Backspace(T: Tables, s: State)
    requires Idle(T, s)
    ensures var f, r := s.f, FedAll(T, s, [8]).f;
      r == f.(graphic := false, m := if Column(f.m) > 0 then f.m.(x := Column(f.m) - 1) else f.m)
  {
    hide FedAll, Idle, Rows, Fits, LookFits;
    ByteFed(T, s, 8);
    IdleFace(T, s);
  }

  /** Tab: to the next multiple of eight, t, or to the last column if that is nearer. */
  lemma {:induction false} Tab(T: Tables, s: State, t: nat)
    requires Idle(T, s) && t % 8 == 0 && Column(s.f.m) < t <= Column(s.f.m) + 8
    ensures var f, r := s.f, FedAll(T, s, [9]).f;
      r == f.(graphic := false, m := f.m.(x := if t < f.m.cols then t else f.m.cols - 1))
  {
    hide FedAll, Idle, Rows, Fits, LookFits;
    ByteFed(T, s, 9);
    IdleFace(T, s);
    var x := Column(s.f.m);
    assert (x / 8 + 1) * 8 == t;
  }

  lemma {:induction false} CarriageReturn(T: Tables, s: State)
    requires Idle(T, s)
    ensures FedAll(T, s, [13]).f == s.f.(graphic := false, m := s.f.m.(x := 0))
  {
    hide FedAll, Idle, Rows, Fits, LookFits;
    ByteFed(T, s, 13);
    IdleFace(T, s);
  }

  /** SO and SI choose between the two character sets. */
  lemma {:induction false} ShiftSets(T: Tables, s: State, out: bool)
    requires Idle(T, s)
    ensures FedAll(T, s, [if out then 14 else 15]).f ==
      s.f.(graphic := false, look := s.f.look.(charset := if out then 1 else 0))
  {
    hide FedAll, Idle, Rows, Fits, LookFits;
    ByteFed(T, s, if out then 14 else 15);
    IdleFace(T, s);
  }

  /** The other control characters do nothing. */
  lemma {:induction false} OtherControl(T: Tables, s: State, c: Octet)
    requires Idle(T, s) && (c < 8 || 16 <= c < 0x20 || c == 0x7F) && c !in [0x18, 0x1A, 0x1B]
    ensures FedAll(T, s, [c]).f == s.f.(graphic := false)
  {
    hide FedAll, Idle, Rows, Fits, LookFits;
    ByteFed(T, s, c);
    IdleFace(T, s);
  }

  /** One line down, to column col: at the bottom margin the lines of the region move up and
      the last one is blank; on the last line of the screen below the region nothing
      happens. */
  ghost predicate DownOne(m: Plain, r: Plain, col: nat)
    requires Proper(m) && Proper(r) && m.rows == r.rows && m.cols == r.cols
  {
    if m.y == m.bottom - 1 then
      && r == m.(g := r.g, x := col)
      && forall x: nat, y: nat {:trigger CellAt(r, x, y)} :: x < m.cols && y < m.rows ==>
        CellAt(r, x, y) == if m.top <= y < m.bottom - 1 then CellAt(m, x, y + 1)
          else if y == m.bottom - 1 then Drawn(SPACE, m.pen) else CellAt(m, x, y)
    else if m.y < m.rows - 1 then r == m.(x := col, y := m.y + 1)
    else r == m
  }

  /** One line up: at the top margin the lines of the region move down and the first one is
      blank; on the first line of the screen above the region nothing happens. */
  ghost predicate UpOne(m: Plain, r: Plain)
    requires Proper(m) && Proper(r) && m.rows == r.rows && m.cols == r.cols
  {
    if m.y == m.top then
      && r == m.(g := r.g, x := Column(m))
      && forall x: nat, y: nat {:trigger CellAt(r, x, y)} :: x < m.cols && y < m.rows ==>
        CellAt(r, x, y) == if m.top < y < m.bottom then CellAt(m, x, y - 1)
          else if y == m.top then Drawn(SPACE, m.pen) else CellAt(m, x, y)
    else if m.y > 0 then r == m.(x := Column(m), y := m.y - 1)
    else r == m
  }

  lemma {:induction false} CellsOnly(m: Plain, r: Plain, x: nat, y: nat)
    requires Proper(m) && Proper(r) && r.g == m.g && r.cols == m.cols && r.rows == m.rows && x < m.cols && y < m.rows
    ensures CellAt(r, x, y) == CellAt(m, x, y)
  {
  }

  lemma {:induction false} LineFedDown(m: Plain, col: nat)
    requires Proper(m) && col < m.cols
    ensures DownOne(m, LineFed(m, col), col)
  {
    hide CellAt, Rows, Fits, ScrolledUp;
    var r := LineFed(m, col);
    if m.y == m.bottom - 1 {
      forall x: nat, y: nat {:trigger CellAt(r, x, y)} | x < m.cols && y < m.rows
        ensures CellAt(r, x, y) == if m.top <= y < m.bottom - 1 then CellAt(m, x, y + 1)
          else if y == m.bottom - 1 then Drawn(SPACE, m.pen) else CellAt(m, x, y)
      {
        RolledUp(m, x, y);
        CellsOnly(Rolled(m, true), r, x, y);
      }
    }
  }

  lemma {:induction false} ReversedUp(m: Plain)
    requires Proper(m)
    ensures m.y == m.top ==> UpOne(m, Put(Rolled(m, false), Column(m), m.y))
    ensures m.y != m.top && m.y > 0 ==> UpOne(m, Put(m, Column(m), m.y - 1))
    ensures m.y != m.top && m.y == 0 ==> UpOne(m, m)
  {
    hide CellAt, Rows, Fits, ScrolledDown;
    if m.y == m.top {
      var r := Put(Rolled(m, false), Column(m), m.y);
      forall x: nat, y: nat {:trigger CellAt(r, x, y)} | x < m.cols && y < m.rows
        ensures CellAt(r, x, y) == if m.top < y < m.bottom then CellAt(m, x, y - 1)
          else if y == m.top then Drawn(SPACE, m.pen) else CellAt(m, x, y)
      {
        RolledDown(m, x, y);
        CellsOnly(Rolled(m, false), r, x, y);
      }
    }
  }

  /** LF, VT and FF. */
  lemma {:induction false} LineFeed(T: Tables, s: State, c: Octet)
    requires Idle(T, s) && 10 <= c <= 12
    ensures var f, r := s.f, FedAll(T, s, [c]).f;
      r == f.(graphic := false, m := r.m) && DownOne(f.m, r.m, Column(f.m))
  {
    hide FedAll, Idle, Rows, Fits, LookFits, LineFed, DownOne;
    ByteFed(T, s, c);
    IdleFace(T, s);
    LineFedDown(s.f.m, Column(s.f.m));
  }

  // ----- escapes of two bytes -----

  lemma {:induction false} ShortFed(T: Tables, s: State, c: Octet)
    requires Idle(T, s) && c !in [0x18, 0x1A, 0x1B, 0x5D, 0x5B, 0x63, 0x28, 0x29]
    ensures Idle(T, FedAll(T, s, [0x1B, c])) && FedAll(T, s, [0x1B, c]).f == Short(T, s.f, c)
  {
    hide FaceOk, NumbersOk, FedAll, Short;
    EscFed(T, s);
    var s1 := Fed(T, s, 0x1B);
    FedOne(T, s, 0x1B);
    FedOne(T, s1, c);
    FedConcat(T, s, [0x1B], [c]);
    assert [0x1B] + [c] == [0x1B, c];
  }

  /** `ESC D`: index. */
  lemma {:induction false} Index(T: Tables, s: State)
    requires Idle(T, s)
    ensures var f, r := s.f, FedAll(T, s, [0x1B, 0x44]).f; r == f.(m := r.m) && DownOne(f.m, r.m, Column(f.m))
  {
    hide FedAll, Idle, Rows, Fits, LookFits, LineFed, DownOne;
    ShortFed(T, s, 0x44);
    IdleFace(T, s);
    LineFedDown(s.f.m, Column(s.f.m));
  }

  /** `ESC E`: to the start of the next line, or of the last line below the region. */
  lemma {:induction false} NextLine(T: Tables, s: State)
    requires Idle(T, s)
    ensures var f, r := s.f, FedAll(T, s, [0x1B, 0x45]).f;
      && r == f.(m := r.m)
      && if f.m.y == f.m.rows - 1 && f.m.y != f.m.bottom - 1 then r.m == f.m.(x := 0) else DownOne(f.m, r.m, 0)
  {
    hide FedAll, Idle, Rows, Fits, LookFits, LineFed, DownOne;
    ShortFed(T, s, 0x45);
    IdleFace(T, s);
    LineFedDown(s.f.m, 0);
  }

  /** `ESC M`: reverse index. */
  lemma {:induction false} ReverseIndex(T: Tables, s: State)
    requires Idle(T, s)
    ensures var f, r := s.f, FedAll(T, s, [0x1B, 0x4D]).f; r == f.(m := r.m) && UpOne(f.m, r.m)
  {
    hide FedAll, Idle, Rows, Fits, LookFits, LineFed, UpOne, Rolled, Put;
    ShortFed(T, s, 0x4D);
    IdleFace(T, s);
    ReversedUp(s.f.m);
  }

  /** `ESC 7` and `ESC 8` save and restore the cursor, the pen and the attributes. */
  lemma {:induction false} SaveAndRestore(T: Tables, s: State)
    requires Idle(T, s)
    ensures FedAll(T, s, [0x1B, 0x37]).f == s.f.(saved := Saved(s.f.m.x, s.f.m.y, s.f.m.pen, s.f.look))
    ensures FedAll(T, s, [0x1B, 0x38]).f ==
      s.f.(look := s.f.saved.look, m := s.f.m.(x := s.f.saved.x, y := s.f.saved.y, pen := s.f.saved.pen))
  {
    hide FedAll, Idle, Rows, Fits, LookFits;
    ShortFed(T, s, 0x37);
    ShortFed(T, s, 0x38);
    IdleFace(T, s);
  }

  /** Other escapes do nothing. */
  lemma {:induction false} OtherEscape(T: Tables, s: State, c: Octet)
    requires Idle(T, s) && c !in [0x18, 0x1A, 0x1B, 0x5D, 0x5B, 0x63, 0x28, 0x29, 0x37, 0x38, 0x44, 0x45, 0x4D]
    ensures FedAll(T, s, [0x1B, c]).f == s.f
  {
    hide FedAll, Idle, Rows, Fits, LookFits;
    ShortFed(T, s, c);
    IdleFace(T, s);
  }

  /** `ESC c`: an empty screen in the default colours, the cursor at home and visible, no
      margins, no attributes, nothing saved. */
  lemma {:induction false} Reset(T: Tables, s: State)
    requires Idle(T, s)
    ensures var f, r := s.f, FedAll(T, s, [0x1B, 0x63]);
      && Idle(T, r) && Proper(r.f.m) && AllEmpty(r.f.m, Empty(r.f))
      && r.f.m == Plain(f.m.rows, f.m.cols, r.f.m.g, 0, 0, r.f.m.pen, 0, f.m.rows, true, true, true)
      && r.f.m.pen.fg == T.fg && !r.f.m.pen.fgDefault && r.f.m.pen.bgDefault
      && r.f.look == Look(false, false, false, false, 0, [0, 1], -1, -1)
      && r.f.saved == Saved(0, 0, r.f.m.pen, r.f.look) && r.f.savedX == 0 && r.f.savedY == 0 && !r.f.insert
      && !r.f.graphic
  {
    hide FedAll, Fed, Rows, Fits, AllEmpty, Wiped, NumbersOk;
    ResetFed(T, s);
    var m := Bounded(s.f.m, 0, s.f.m.rows).(pen := Unpainted(T, PaintOf(s.f)).pen, cursor := true, wrap := true,
      scroll := true);
    WipedEmpty(m);
  }

  lemma {:induction false} ResetFed(T: Tables, s: State)
    requires Idle(T, s)
    ensures Idle(T, FedAll(T, s, [0x1B, 0x63])) && FedAll(T, s, [0x1B, 0x63]).f == Initial(T, s.f)
  {
    hide FaceOk, NumbersOk, FedAll, Initial;
    EscFed(T, s);
    var s1 := Fed(T, s, 0x1B);
    FedOne(T, s, 0x1B);
    FedOne(T, s1, 0x63);
    FedConcat(T, s, [0x1B], [0x63]);
    assert [0x1B] + [0x63] == [0x1B, 0x63];
  }

  /** `ESC (` and `ESC )` choose what the first and the second set are: `0` for the DEC
      special graphics and `B` for ASCII. */
  lemma {:induction false} ChooseSet(T: Tables, s: State, second: bool, c: Octet)
    requires Idle(T, s) && 0x20 <= c < 0x7F
    ensures var f, r := s.f, FedAll(T, s, [0x1B, if second then 0x29 else 0x28, c]);
      var g := if second then 1 else 0;
      && Idle(T, r)
      && r.f == f.(look := f.look.(charsets := if c == 0x30 then f.look.charsets[g := 1]
           else if c == 0x42 then f.look.charsets[g := 0] else f.look.charsets))
  {
    hide FedAll, NumbersOk, Proper, Decoded, Fed;
    var b := if second then 0x29 else 0x28;
    EscFed(T, s);
    var s1 := Fed(T, s, 0x1B);
    SelectFed(T, s1, b);
    var s2 := Fed(T, s1, b);
    SetFed(T, s2, c);
    FedOne(T, s, 0x1B);
    FedOne(T, s1, b);
    FedOne(T, s2, c);
    FedConcat(T, s, [0x1B], [b]);
    FedConcat(T, s, [0x1B] + [b], [c]);
    assert [0x1B] + [b] + [c] == [0x1B, b, c];
  }

  lemma {:induction false} SelectFed(T: Tables, s: State, b: Octet)
    requires TablesOk(T) && StateOk(s) && s.p.mode.escape && !s.p.mode.control && !s.p.mode.osc && !s.p.mode.discard
    requires b == 0x28 || b == 0x29
    ensures Fed(T, s, b) == State(s.f, s.p.(mode := Later(s.p.mode).(escape := false), select := b - 0x27))
  {
    hide FaceOk, NumbersOk, Short, Initial, Sequenced;
  }

  lemma {:induction false} SetFed(T: Tables, s: State, c: Octet)
    requires TablesOk(T) && StateOk(s) && !s.p.mode.escape && !s.p.mode.discard && s.p.u.rem == 0 && s.p.select > 0
    requires 0x20 <= c < 0x7F
    ensures Fed(T, s, c) == State(Charset(s.f, s.p.select - 1, c), s.p.(select := 0))
  {
    hide FaceOk, NumbersOk, Decoded, Charset, Shown;
    Flanterm.DecodedFresh(T, s, c);
  }

  // ----- text -----

  /** The glyph of a byte of ASCII: in the DEC special graphics set that of the table. */
  function GlyphOf(T: Tables, k: Look, c: nat): nat
    requires LookFits(k)
  {
    if k.charsets[k.charset] == 1 && T.decSpecial(c) >= 0 then T.decSpecial(c) else c
  }

  /** What one glyph does on a line with room: it is at the cursor, which moves on; in
      insert mode the cells from the cursor on have moved right by w. */
  ghost predicate ShownAt(f: Face, r: Face, g: nat, w: nat)
    requires FaceOk(f) && FaceOk(r) && f.m.rows == r.m.rows && f.m.cols == r.m.cols
  {
    && r == f.(last := g, graphic := true, m := f.m.(g := r.m.g, x := f.m.x + 1))
    && forall x: nat, y: nat {:trigger CellAt(r.m, x, y)} :: x < f.m.cols && y < f.m.rows ==>
      CellAt(r.m, x, y) == if x == f.m.x && y == f.m.y then Drawn(g, f.m.pen)
        else if f.insert && y == f.m.y && f.m.x + w <= x then CellAt(f.m, x - w, y) else CellAt(f.m, x, y)
  }

  lemma {:induction false} RememberedShown(f: Face, g: nat, w: nat)
    requires FaceOk(f) && f.m.x < f.m.cols
    ensures ShownAt(f, Remembered(f, g, w), g, w)
  {
    hide CellAt, Proper, LookFits, Typed, Spread;
    var m, r := if f.insert then Spread(f.m, w) else f.m, Remembered(f, g, w);
    SpreadFrame(f.m, w);
    forall x: nat, y: nat {:trigger CellAt(r.m, x, y)} | x < f.m.cols && y < f.m.rows
      ensures CellAt(r.m, x, y) == if x == f.m.x && y == f.m.y then Drawn(g, f.m.pen)
        else if f.insert && y == f.m.y && f.m.x + w <= x then CellAt(f.m, x - w, y) else CellAt(f.m, x, y)
    {
      TypedCell(m, g, x, y);
      SpreadCell(f.m, w, x, y);
    }
    TypedCell(m, g, 0, 0);
  }

  lemma {:induction false} SpreadFrame(m: Plain, w: nat)
    requires Proper(m)
    ensures Spread(m, w) == m.(g := Spread(m, w).g) && m.cols > 0 && m.rows > 0
    ensures m.x < m.cols ==> Column(m) == m.x
  {
    hide Rows, Fits;
  }

  /** A printable byte of ASCII. */
  lemma {:induction false} LetterShown(T: Tables, s: State, c: Octet)
    requires Idle(T, s) && 0x20 <= c < 0x7F && s.f.m.x < s.f.m.cols
    ensures ShownAt(s.f, FedAll(T, s, [c]).f, GlyphOf(T, s.f.look, c), 1)
  {
    hide FedAll, Idle, Proper, Remembered, ShownAt;
    ByteFed(T, s, c);
    IdleFace(T, s);
    RememberedShown(s.f, GlyphOf(T, s.f.look, c), 1);
  }

  /** On a full line with wrapping: the next line is the one that it lands on, after
      scrolling if the line is the last of the region. */
  lemma {:induction false} LetterWraps(T: Tables, s: State, c: Octet)
    requires Idle(T, s) && 0x20 <= c < 0x7F && s.f.m.x == s.f.m.cols && s.f.m.wrap && s.f.m.scroll && !s.f.insert
    ensures var f, r := s.f, FedAll(T, s, [c]).f;
      && (f.m.y == f.m.bottom - 1 ==> ShownAt(f.(m := Rolled(f.m, true).(x := 0)), r, GlyphOf(T, f.look, c), 1))
      && (f.m.y != f.m.bottom - 1 && f.m.y < f.m.rows - 1 ==>
           ShownAt(f.(m := f.m.(x := 0, y := f.m.y + 1)), r, GlyphOf(T, f.look, c), 1))
      && (f.m.y != f.m.bottom - 1 && f.m.y == f.m.rows - 1 ==>
           ShownAt(f.(m := f.m.(x := 0)), r, GlyphOf(T, f.look, c), 1))
  {
    hide FedAll, Idle, ShownAt, Typed, Rows, Fits;
    ByteFed(T, s, c);
    IdleFace(T, s);
    var f, g := s.f, GlyphOf(T, s.f.look, c);
    TypedFull(f.m, g);
    if f.m.y == f.m.bottom - 1 {
      RememberedShown(f.(m := Rolled(f.m, true).(x := 0)), g, 1);
    } else if f.m.y < f.m.rows - 1 {
      RememberedShown(f.(m := f.m.(x := 0, y := f.m.y + 1)), g, 1);
    } else {
      RememberedShown(f.(m := f.m.(x := 0)), g, 1);
    }
  }

  /** A code point outside ASCII that the font has. */
  lemma {:induction false} GlyphShown(T: Tables, s: State, cp: nat)
    requires Idle(T, s) && Utf8.Scalar(cp) && cp > 0x7F && T.cp437(cp) >= 0 && s.f.m.x < s.f.m.cols
    ensures ItemOk(Letter(cp)) && ShownAt(s.f, FedAll(T, s, BytesOf(Letter(cp))).f, T.cp437(cp), 1)
  {
    hide FedAll, Idle, Proper, Remembered, ShownAt, Utf8.Scalar, BytesOf;
    IdleFace(T, s);
    LetterFed(T, s, cp);
    RememberedShown(s.f, T.cp437(cp), 1);
  }

  /** One that it does not have: a box and spaces as wide as the character. */
  lemma {:induction false} BoxShown(T: Tables, s: State, cp: nat, x: nat, y: nat)
    requires Idle(T, s) && Utf8.Scalar(cp) && cp > 0x7F && T.cp437(cp) < 0 < T.width(cp)
    requires s.f.m.x + T.width(cp) <= s.f.m.cols && !s.f.insert && x < s.f.m.cols && y < s.f.m.rows
    ensures ItemOk(Letter(cp))
    ensures var f, r, w := s.f, FedAll(T, s, BytesOf(Letter(cp))).f, T.width(cp);
      && r == f.(last := BOX, graphic := true, m := f.m.(g := r.m.g, x := f.m.x + w))
      && CellAt(r.m, x, y) == if y == f.m.y && x == f.m.x then Drawn(BOX, f.m.pen)
        else if y == f.m.y && f.m.x < x < f.m.x + w then Drawn(SPACE, f.m.pen) else CellAt(f.m, x, y)
  {
    hide FedAll, Idle, Proper, Remembered, Utf8.Scalar, BytesOf, CellAt, Spaces, LookFits;
    IdleFace(T, s);
    LetterFed(T, s, cp);
    var w := T.width(cp);
    RememberedShown(s.f, BOX, w);
    SpacesCell(Remembered(s.f, BOX, w).m, w - 1, x, y);
  }

  lemma {:induction false} RepeatedCells(f: Face, n: nat, x: nat, y: nat)
    requires FaceOk(f) && !f.insert && f.m.x + n <= f.m.cols && x < f.m.cols && y < f.m.rows
    ensures var r := Repeated(f, n);
      && r == f.(m := f.m.(g := r.m.g, x := f.m.x + n))
      && CellAt(r.m, x, y) == if y == f.m.y && f.m.x <= x < f.m.x + n then Drawn(f.last, f.m.pen)
        else CellAt(f.m, x, y)
  {
    hide CellAt, Proper, LookFits, Typed;
    if n > 0 {
      RepeatedCells(f, n - 1, x, y);
      TypedCell(Repeated(f, n - 1).m, f.last, x, y);
    }
  }

  /** `CSI n b`: the last character again n times, if it was the last thing written. */
  lemma {:induction false} RepeatShown(T: Tables, s: State, vs: seq<nat>, x: nat, y: nat)
    requires Idle(T, s) && Small(vs) && x < s.f.m.cols && y < s.f.m.rows
    ensures var f, r, n := s.f, FedAll(T, s, Csi(vs, 0x62)).f, Count(vs, 0);
      && (!f.graphic ==> r == f)
      && (f.graphic && !f.insert && f.m.x + n <= f.m.cols ==>
           r == f.(m := f.m.(g := r.m.g, x := f.m.x + n)) && CellAt(r.m, x, y) ==
             if y == f.m.y && f.m.x <= x < f.m.x + n then Drawn(f.last, f.m.pen) else CellAt(f.m, x, y))
  {
    hide FedAll, Given, Idle, Small, Count, Ground, ParserOk, LookFits, Proper, CellAt, Repeated;
    Sent(T, s, vs, 0x62);
    CountIs(vs, 0x62, 0);
    IdleFace(T, s);
    if !s.f.insert && s.f.m.x + Count(vs, 0) <= s.f.m.cols {
      RepeatedCells(s.f, Count(vs, 0), x, y);
    }
  }
}
