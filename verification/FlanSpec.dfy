/** What a byte means to the terminal: the escape sequence language as functions on plain
    states. */
module FlanSpec {
  import opened RowMajor
  import opened TermGrid
  import opened Term
  import opened TermTheorems
  import opened FlanScreen
  import Utf8

  type Word = x: nat | x < 0x1_0000_0000
  type Octet = x: nat | x < 0x100

  const MAX_VALUES: nat := 16
  const OSC_SIZE: nat := 256

  /** The tables that the terminal looks glyphs and colours up in; a glyph or a width below
      zero is none. */
  datatype Tables = Tables(ansi: seq<nat>, bright: seq<nat>, cube: seq<nat>, fg: nat, fgBright: nat, bgBright: nat,
                           cp437: nat -> int, width: nat -> int, decSpecial: nat -> int, convert: nat -> nat)

  ghost predicate TablesOk(T: Tables) { |T.ansi| == 8 == |T.bright| && |T.cube| == 240 }

  // ----- colours -----

  /** `current_primary` and `current_bg`: none, a direct colour, or one of eight. */
  const DEFAULT: int := -1
  const DIRECT: int := -2

  /** The part of the state that `save_state` keeps, besides the cursor and the pen. */
  datatype Look = Look(bold: bool, bgBold: bool, reverse: bool, origin: bool, charset: nat, charsets: seq<nat>,
    primary: int, bg: int)

  predicate LookFits(k: Look) { k.charset <= 1 && |k.charsets| == 2 && -2 <= k.primary < 8 && -2 <= k.bg < 8 }

  const PLAIN: Look := Look(false, false, false, false, 0, [0, 1], DEFAULT, DEFAULT)

  datatype Paint = Paint(look: Look, pen: Pen)

  function Swapped(p: Pen): Pen { Pen(p.bg, p.fg, p.bgDefault, p.fgDefault) }

  /** One side of the pen. */
  function WithInk(p: Pen, fg: bool, ink: nat): Pen
  {
    if fg then p.(fg := ink, fgDefault := false) else p.(bg := ink, bgDefault := false)
  }

  function Shade(T: Tables, k: nat, light: bool): nat
    requires TablesOk(T) && k < 8
  {
    if light then T.bright[k] else T.ansi[k]
  }

  /** The default colour of the text or of the background put on one side of the pen. */
  function WithDefault(T: Tables, p: Pen, side: bool, ofText: bool, light: bool): Pen
  {
    if ofText then WithInk(p, side, if light then T.fgBright else T.fg)
    else if light then WithInk(p, side, T.bgBright)
    else if side then p.(fgDefault := true) else p.(bgDefault := true)
  }

  /** The colour chosen for the text or for the background. */
  function Chosen(k: Look, text: bool): int { if text then k.primary else k.bg }

  function Choose(k: Look, text: bool, colour: int): Look { if text then k.(primary := colour) else k.(bg := colour) }

  /** The side of the pen that a colour goes to. */
  function Side(k: Look, text: bool): bool { text != k.reverse }

  /** Intensity on or off (1, 22, 5 and 25): the colour in force is set again. */
  function Intense(T: Tables, p: Paint, text: bool, light: bool): Paint
    requires TablesOk(T) && LookFits(p.look)
  {
    var look := if text then p.look.(bold := light) else p.look.(bgBold := light);
    var side, colour := Side(look, text), Chosen(look, text);
    Paint(look, if colour == DIRECT then p.pen else if colour == DEFAULT then WithDefault(T, p.pen, side, side, light)
      else WithInk(p.pen, side, Shade(T, colour, light)))
  }

  /** One of the eight colours, bright if asked for or if the intensity is on. */
  function Tinted(T: Tables, p: Paint, text: bool, k: nat, light: bool): Paint
    requires TablesOk(T) && k < 8
  {
    Paint(Choose(p.look, text, k),
      WithInk(p.pen, Side(p.look, text), Shade(T, k, light || if text then p.look.bold else p.look.bgBold)))
  }

  /** The default colour again (39 and 49). */
  function Untinted(T: Tables, p: Paint, text: bool): Paint
  {
    Paint(Choose(p.look, text, DEFAULT),
      WithDefault(T, p.pen, Side(p.look, text), text, if text then p.look.bold else p.look.bgBold))
  }

  /** A direct colour. */
  function Dyed(p: Paint, text: bool, ink: nat): Paint
  {
    Paint(Choose(p.look, text, DIRECT), WithInk(p.pen, Side(p.look, text), ink))
  }

  function Reversed(p: Paint, on: bool): Paint
  {
    if p.look.reverse == on then p else Paint(p.look.(reverse := on), Swapped(p.pen))
  }

  function Unpainted(T: Tables, p: Paint): Paint
  {
    var q := Reversed(p, false);
    Paint(q.look.(bold := false, bgBold := false, primary := DEFAULT, bg := DEFAULT),
      q.pen.(bgDefault := true, fg := T.fg, fgDefault := false))
  }

  /** One value of `sgr` that stands for itself. */
  function Attributed(T: Tables, p: Paint, v: nat): (q: Paint)
    requires TablesOk(T) && LookFits(p.look)
    ensures LookFits(q.look)
  {
    if v == 0 then Unpainted(T, p)
    else if v == 1 || v == 22 then Intense(T, p, true, v == 1)
    else if v == 5 || v == 25 then Intense(T, p, false, v == 5)
    else if v == 7 || v == 27 then Reversed(p, v == 7)
    else if 30 <= v <= 37 then Tinted(T, p, true, v - 30, false)
    else if 40 <= v <= 47 then Tinted(T, p, false, v - 40, false)
    else if 90 <= v <= 97 then Tinted(T, p, true, v - 90, true)
    else if 100 <= v <= 107 then Tinted(T, p, false, v - 100, true)
    else if v == 39 || v == 49 then Untinted(T, p, v == 39)
    else p
  }

  /** One of 256 colours: the eight, the eight bright ones, or one of the table. */
  function Indexed(T: Tables, p: Paint, text: bool, k: nat): (q: Paint)
    requires TablesOk(T) && LookFits(p.look)
    ensures LookFits(q.look)
  {
    if k < 16 then Dyed(p, text, Shade(T, k % 8, k >= 8))
    else if k < 256 then Dyed(p, text, T.convert(T.cube[k - 16]))
    else p
  }

  function Rgb(r: nat, g: nat, b: nat): nat { r % 256 * 0x1_0000 + g % 256 * 0x100 + b % 256 }

  /** How many values an attribute takes up: 38 and 48 are followed by 5 and an index or by
      2 and three components. */
  function Span(vs: seq<Word>): (n: nat)
    requires vs != []
    ensures 1 <= n
  {
    if vs[0] != 38 && vs[0] != 48 then 1
    else if |vs| == 1 then 1
    else if vs[1] == 2 then 5
    else if vs[1] == 5 then 3
    else 2
  }

  /** `sgr`: an attribute that is cut off ends it. */
  function Painted(T: Tables, p: Paint, vs: seq<Word>): (q: Paint)
    requires TablesOk(T) && LookFits(p.look)
    ensures LookFits(q.look)
    decreases |vs|
  {
    if vs == [] then p
    else if vs[0] != 38 && vs[0] != 48 then Painted(T, Attributed(T, p, vs[0]), vs[1..])
    else if |vs| == 1 || Span(vs) > |vs| then p
    else if vs[1] == 2 then Painted(T, Dyed(p, vs[0] == 38, T.convert(Rgb(vs[2], vs[3], vs[4]))), vs[5..])
    else if vs[1] == 5 then Painted(T, Indexed(T, p, vs[0] == 38, vs[2]), vs[3..])
    else Painted(T, p, vs[2..])
  }

  // ----- the visible state -----

  datatype Saved = Saved(x: nat, y: nat, pen: Pen, look: Look)

  datatype Face = Face(m: Plain, look: Look, saved: Saved, savedX: nat, savedY: nat, insert: bool, last: nat,
    graphic: bool)

  ghost predicate FaceOk(f: Face)
  {
    Proper(f.m) && LookFits(f.look) && LookFits(f.saved.look) && f.saved.x <= f.m.cols && f.saved.y < f.m.rows
  }

  /** A sound state of the same size. */
  ghost predicate Keeps(f: Face, r: Face) { FaceOk(r) && r.m.rows == f.m.rows && r.m.cols == f.m.cols }

  /** The new state of the screen. */
  function On(f: Face, m: Plain): (r: Face)
    requires FaceOk(f) && Alike(f.m, m)
    ensures Keeps(f, r)
  {
    f.(m := m)
  }

  function Recoloured(f: Face, q: Paint): (r: Face)
    requires FaceOk(f) && LookFits(q.look)
    ensures Keeps(f, r)
  {
    f.(look := q.look, m := f.m.(pen := q.pen))
  }

  function PaintOf(f: Face): Paint { Paint(f.look, f.m.pen) }

  /** `CSI m` */
  function Sgr(T: Tables, f: Face, vs: seq<Word>): (r: Face)
    requires TablesOk(T) && FaceOk(f)
    ensures Keeps(f, r)
  {
    Recoloured(f, if vs == [] then Unpainted(T, PaintOf(f)) else Painted(T, PaintOf(f), vs))
  }

  function Saving(f: Face): (r: Face)
    requires FaceOk(f)
    ensures Keeps(f, r)
  {
    f.(saved := Saved(f.m.x, f.m.y, f.m.pen, f.look))
  }

  function Restoring(f: Face): (r: Face)
    requires FaceOk(f)
    ensures Keeps(f, r)
  {
    f.(look := f.saved.look, m := f.m.(x := f.saved.x, y := f.saved.y, pen := f.saved.pen))
  }

  /** One value of a DEC private mode sequence. */
  function DecMode(f: Face, v: nat, on: bool): (r: Face)
    requires FaceOk(f)
    ensures Keeps(f, r)
  {
    if v == 6 then On(f, Put(f.m, 0, if on then f.m.top else 0)).(look := f.look.(origin := on))
    else if v == 7 then f.(m := f.m.(wrap := on))
    else if v == 25 then f.(m := f.m.(cursor := on))
    else if v != 1049 then f
    else if on then var s := Saving(f); On(s, Wiped(s.m, true))
    else Restoring(On(f, Wiped(f.m, true)))
  }

  function DecModes(f: Face, vs: seq<Word>, on: bool): (r: Face)
    requires FaceOk(f)
    ensures Keeps(f, r)
  {
    if vs == [] then f else DecMode(DecModes(f, vs[..|vs| - 1], on), vs[|vs| - 1], on)
  }

  /** A line feed with the cursor in column x afterwards: at the bottom margin the region
      scrolls, and on the last line of the screen outside it nothing happens. */
  function LineFed(m: Plain, x: nat): (r: Plain)
    requires Proper(m)
    ensures Alike(m, r)
  {
    if m.y == m.bottom - 1 then Put(Rolled(m, true), x, m.y)
    else if m.y < m.rows - 1 then Put(m, x, m.y + 1)
    else m
  }

  /** `execute_c0` */
  function Control(f: Face, c: nat): (r: Face)
    requires FaceOk(f)
    ensures Keeps(f, r)
  {
    var m, x := f.m, Column(f.m);
    if c == 8 then (if x > 0 then On(f, Put(m, x - 1, m.y)) else f)
    else if c == 9 then On(f, Put(m, if (x / 8 + 1) * 8 >= m.cols then m.cols - 1 else (x / 8 + 1) * 8, m.y))
    else if 10 <= c <= 12 then On(f, LineFed(m, x))
    else if c == 13 then On(f, Put(m, 0, m.y))
    else if c == 14 || c == 15 then f.(look := f.look.(charset := if c == 14 then 1 else 0))
    else f
  }

  /** `ESC c` */
  function Initial(T: Tables, f: Face): (r: Face)
    requires FaceOk(f)
    ensures Keeps(f, r)
  {
    var pen := Unpainted(T, PaintOf(f)).pen;
    var m := Bounded(f.m, 0, f.m.rows).(pen := pen, cursor := true, wrap := true, scroll := true);
    var w := Wiped(m, true);
    Face(w, PLAIN, Saved(0, 0, pen, PLAIN), 0, 0, false, SPACE, false)
  }

  /** Escape sequences of two bytes. */
  function Short(T: Tables, f: Face, c: nat): (r: Face)
    requires FaceOk(f)
    ensures Keeps(f, r)
  {
    var m, x := f.m, Column(f.m);
    if c == 0x37 then Saving(f)
    else if c == 0x38 then Restoring(f)
    else if c == 0x63 then Initial(T, f)
    else if c == 0x44 then On(f, LineFed(m, x))
    else if c == 0x45 then On(f, if m.y == m.rows - 1 && m.y != m.bottom - 1 then Put(m, 0, m.y) else LineFed(m, 0))
    else if c == 0x4D then On(f, if m.y == m.top then Put(Rolled(m, false), x, m.y)
      else if m.y > 0 then Put(m, x, m.y - 1) else m)
    else f
  }

  // ----- printing -----

  /** A character, with room made for it in insert mode. */
  function Shown(f: Face, g: nat, room: nat): (r: Face)
    requires FaceOk(f)
    ensures Keeps(f, r)
  {
    On(f, Typed(if f.insert then Spread(f.m, room) else f.m, g))
  }

  function Remembered(f: Face, g: nat, room: nat): (r: Face)
    requires FaceOk(f)
    ensures Keeps(f, r)
  {
    Shown(f, g, room).(last := g, graphic := true)
  }

  function Spaces(m: Plain, n: nat): (r: Plain)
    requires Proper(m)
    ensures Alike(m, r)
  {
    if n == 0 then m else Typed(Spaces(m, n - 1), SPACE)
  }

  const BOX: nat := 0xFE

  /** A code point outside ASCII: its glyph, or a box as wide as the character. */
  function Printed(T: Tables, f: Face, cp: nat): (r: Face)
    requires FaceOk(f)
    ensures Keeps(f, r)
  {
    var g, w := T.cp437(cp), T.width(cp);
    if g >= 0 then Remembered(f, g, 1)
    else if w > 0 then var b := Remembered(f, BOX, w); On(b, Spaces(b.m, w - 1))
    else f
  }

  /** A byte as a character of the current set. */
  function Character(T: Tables, f: Face, c: nat): (r: Face)
    requires FaceOk(f)
    ensures Keeps(f, r)
  {
    var g := T.decSpecial(c);
    Remembered(f, if f.look.charsets[f.look.charset] == 1 && g >= 0 then g else if c <= 0x7E then c else BOX, 1)
  }

  /** `CSI b` */
  function Repeated(f: Face, n: nat): (r: Face)
    requires FaceOk(f)
    ensures Keeps(f, r) && r.insert == f.insert && r.last == f.last && r.graphic == f.graphic
  {
    if n == 0 then f else var b := Repeated(f, n - 1); Shown(b, b.last, 1)
  }

  // ----- control sequences -----

  const ICH: nat := 0x40  // @
  const CUU: nat := 0x41  // A
  const CUD: nat := 0x42  // B
  const CUF: nat := 0x43  // C
  const CUB: nat := 0x44  // D
  const CNL: nat := 0x45  // E
  const CPL: nat := 0x46  // F
  const CHA: nat := 0x47  // G
  const CUP: nat := 0x48  // H
  const ED: nat := 0x4A  // J
  const EL: nat := 0x4B  // K
  const IL: nat := 0x4C  // L
  const DL: nat := 0x4D  // M
  const DCH: nat := 0x50  // P
  const SU: nat := 0x53  // S
  const SD: nat := 0x54  // T
  const ECH: nat := 0x58  // X
  const OSC: nat := 0x5D  // ]
  const HPA: nat := 0x60  // `
  const HPR: nat := 0x61  // a
  const REP: nat := 0x62  // b
  const DA: nat := 0x63  // c
  const VPA: nat := 0x64  // d
  const VPR: nat := 0x65  // e
  const HVP: nat := 0x66  // f
  const SM: nat := 0x68  // h
  const RM: nat := 0x6C  // l
  const SGR: nat := 0x6D  // m
  const DECLL: nat := 0x71  // q
  const DECSTBM: nat := 0x72  // r
  const SCP: nat := 0x73  // s
  const RCP: nat := 0x75  // u

  /** Final bytes whose missing values count as zero. */
  predicate ZeroDefault(c: nat) { c == ED || c == EL || c == DECLL || c == SGR || c == DA || c == OSC }

  predicate IsAbsolute(c: nat) { c == VPA || c == CHA || c == HPA || c == CUP || c == HVP }

  predicate IsMove(c: nat) { c == CUU || c == CPL || c == CUD || c == VPR || c == CNL || c == CUF || c == HPR
      || c == CUB || IsAbsolute(c) }

  predicate IsEdit(c: nat) { c == ED || c == EL || c == ICH || c == DCH || c == ECH }

  predicate IsLines(c: nat) { c == DL || c == IL || c == SU || c == SD }

  function Least(a: int, b: int): int { if a < b then a else b }

  function Most(a: int, b: int): int { if a < b then b else a }

  /** Where a cursor movement goes: the wanted place, held to the lines and columns that it
      may reach. */
  function Destination(c: nat, n: nat, m: nat, x: nat, y: nat, origin: bool, top: nat, bottom: nat, rows: nat,
      cols: nat): (int, int)
    requires IsMove(c)
  {
    var first, last := if origin then top else 0, if origin then bottom - 1 else rows - 1;
    if c == CUU then (x, Most(first, y - n))
    else if c == CPL then (0, Most(first, y - n))
    else if c == CUD || c == VPR then (x, Least(last, y + n))
    else if c == CNL then (0, Least(last, y + n))
    else if c == CUF || c == HPR then (Least(cols - 1, x + n), y)
    else if c == CUB then (Most(0, x - n), y)
    else if c == VPA then (x, Least(last, first + Most(0, n - 1)))
    else if c == CHA || c == HPA then (Least(cols - 1, Most(0, n - 1)), y)
    else (Least(cols - 1, Most(0, m - 1)), Least(last, first + Most(0, n - 1)))
  }

  function Travelled(m: Plain, origin: bool, c: nat, n: nat, k: nat): (r: Plain)
    requires Proper(m) && IsMove(c)
    ensures Alike(m, r)
  {
    var d := Destination(c, n, k, Column(m), m.y, origin, m.top, m.bottom, m.rows, m.cols);
    m.(x := d.0, y := d.1)
  }

  /** Erasing, inserting and deleting at the cursor. */
  function Edited(m: Plain, c: nat, n: nat): (r: Plain)
    requires Proper(m)
    ensures Alike(m, r)
  {
    var x, y := Column(m), m.y;
    if c == ED then PageErased(m, n, x, y)
    else if c == EL then LineErased(m, n, x, y)
    else if c == ICH then CharsInserted(m, n, x, y)
    else if c == DCH then CharsDeleted(m, n, x, y)
    else CharsErased(m, n, x, y)
  }

  /** Deleting and inserting lines: at the cursor if it is inside the margins, or from the
      top margin. */
  function Lined(m: Plain, c: nat, n: nat): (r: Plain)
    requires Proper(m)
    ensures Alike(m, r)
  {
    var from := if c == DL || c == IL then m.y else m.top;
    if from < m.top || from >= m.bottom then m
    else
      var count := if n > m.bottom - from then m.bottom - from else n;
      if c == DL || c == SU then LinesDeleted(m, from, count) else LinesInserted(m, from, count)
  }

  /** The margins asked for if they make a region of two lines or more on the screen, and
      otherwise the whole screen; the cursor goes home. */
  function Margined(f: Face, vs: seq<Word>, n: nat): (r: Face)
    requires FaceOk(f) && |vs| == MAX_VALUES
    ensures Keeps(f, r)
  {
    var top, bottom := if n > 0 then (vs[0] as int) - 1 else 0, if n > 1 then vs[1] else f.m.rows;
    var m := if 0 <= top && top + 1 < bottom <= f.m.rows then Bounded(f.m, top, bottom) else Bounded(f.m, 0, f.m.rows);
    On(f, Put(m, 0, if f.look.origin then m.top else 0))
  }

  /** What a control sequence does, for the values vs of which n were given. */
  function Performed(T: Tables, f: Face, c: nat, vs: seq<Word>, n: nat): (r: Face)
    requires TablesOk(T) && FaceOk(f) && |vs| == MAX_VALUES && n <= MAX_VALUES
    ensures Keeps(f, r)
  {
    if IsMove(c) then On(f, Travelled(f.m, f.look.origin, c, vs[0], vs[1]))
    else if IsEdit(c) then On(f, Edited(f.m, c, vs[0]))
    else if IsLines(c) then On(f, Lined(f.m, c, vs[0]))
    else if c == SGR then Sgr(T, f, vs[..n])
    else if c == SCP then f.(savedX := Column(f.m), savedY := f.m.y)
    else if c == RCP then On(f, Put(f.m, f.savedX, f.savedY))
    else if c == DECSTBM then Margined(f, vs, n)
    else if c == SM || c == RM then (if n > 0 && vs[0] == 4 then f.(insert := c == SM) else f)
    else if c == REP then (if f.graphic then Repeated(f, if vs[0] > f.m.cols then f.m.cols else vs[0]) else f)
    else f
  }

  // ----- one byte -----

  /** Where in an escape sequence the parser is. */
  datatype Mode = Mode(escape: bool, control: bool, osc: bool, oscEscape: bool, discard: bool, dec: bool,
    unhandled: bool, offset: nat)

  /** Outside of all escape sequences. */
  const GROUND: Mode := Mode(false, false, false, false, false, false, false, 0)

  /** The sixteen values, how many of them are complete, and whether one is open. */
  datatype Numbers = Numbers(values: seq<Word>, n: nat, open: bool)

  predicate NumbersOk(k: Numbers) { |k.values| == MAX_VALUES && k.n <= MAX_VALUES && (k.open ==> k.n < MAX_VALUES) }

  datatype Parser = Parser(mode: Mode, nums: Numbers, text: seq<Octet>, u: Utf8.Utf, select: nat)

  predicate ParserOk(p: Parser) { NumbersOk(p.nums) && |p.text| <= OSC_SIZE && p.u.rem <= 3 && p.select <= 2 }

  datatype State = State(f: Face, p: Parser)

  ghost predicate StateOk(s: State) { FaceOk(s.f) && ParserOk(s.p) }

  /** One more digit: decimal, stopping short of 32 bits. */
  function Extended(v: Word, digit: nat): Word
    requires digit < 10
  {
    if v > 0xFFFF_FFFF / 10 then v
    else if 10 * v + digit > 0xFFFF_FFFF then 0xFFFF_FFFF
    else 10 * v + digit
  }

  function Digit(k: Numbers, digit: nat): (r: Numbers)
    requires NumbersOk(k) && digit < 10
    ensures NumbersOk(r)
  {
    if k.n == MAX_VALUES then k
    else Numbers(k.values[k.n := Extended(k.values[k.n], digit)], k.n, true)
  }

  /** The end of a value. */
  function Closed(k: Numbers): (r: Numbers)
    requires NumbersOk(k)
    ensures NumbersOk(r) && !r.open
  {
    if k.open then Numbers(k.values, k.n + 1, false) else k
  }

  function Separated(k: Numbers): (r: Numbers)
    requires NumbersOk(k)
    ensures NumbersOk(r) && !r.open
  {
    if k.open then Closed(k)
    else if k.n == MAX_VALUES then k
    else Numbers(k.values[k.n := 0], k.n + 1, false)
  }

  function Value(k: Numbers, i: nat, least: Word): Word
    requires NumbersOk(k) && i < MAX_VALUES
  {
    if i >= k.n || k.values[i] < least then least else k.values[i]
  }

  /** The values with the missing ones, and zeros where one is the least, put in. */
  function Filled(k: Numbers, c: nat): (r: Numbers)
    requires NumbersOk(k)
    ensures NumbersOk(r) && forall i :: 0 <= i < MAX_VALUES ==>
      r.values[i] == Value(k, i, if ZeroDefault(c) then 0 else 1)
  {
    Numbers(seq(MAX_VALUES, i requires 0 <= i < MAX_VALUES => Value(k, i, if ZeroDefault(c) then 0 else 1)), k.n,
      k.open)
  }

  predicate FinalByte(c: nat) { 0x40 <= c <= 0x7E }

  /** The sequence is over. */
  function Over(m: Mode): Mode { m.(control := false, escape := false) }

  /** The mode after a byte that is no digit, separator or control character: it ends the
      sequence, or its middle part. */
  function EndedMode(m: Mode, c: nat): Mode
  {
    if m.dec then (if 0x20 <= c <= 0x2F then m.(dec := false, unhandled := true) else Over(m.(dec := false)))
    else if c == 0x1B then m.(unhandled := false, control := false, offset := 0)
    else if FinalByte(c) then Over(m.(unhandled := false))
    else m.(unhandled := true)
  }

  /** What such a byte does to the screen. */
  function Ended(T: Tables, f: Face, m: Mode, k: Numbers, c: nat): (r: Face)
    requires TablesOk(T) && FaceOk(f) && NumbersOk(k)
    ensures Keeps(f, r)
  {
    if m.dec then (if c == SM || c == RM then DecModes(f, k.values[..k.n], c == SM) else f)
    else if m.unhandled || !FinalByte(c) then f
    else Performed(T, f, c, k.values, k.n)
  }

  /** `control_sequence_parse` */
  function Sequenced(T: Tables, f: Face, p: Parser, c: nat): (r: State)
    requires TablesOk(T) && FaceOk(f) && ParserOk(p)
    ensures StateOk(r) && Keeps(f, r.f)
  {
    if p.mode.offset == 2 && c == 0x5B then State(f, p.(mode := Over(p.mode.(discard := true))))
    else if p.mode.offset == 2 && c == 0x3F then State(f, p.(mode := p.mode.(dec := true)))
    else if c < 0x20 && c != 0x1B then State(Control(f, c), p)
    else if 0x30 <= c <= 0x39 then State(f, p.(nums := Digit(p.nums, c - 0x30)))
    else if c == 0x3B then State(f, p.(nums := Separated(p.nums)))
    else
      var k := Filled(Closed(p.nums), c);
      State(Ended(T, f, p.mode, k, c), p.(mode := EndedMode(p.mode, c), nums := k))
  }

  /** `osc_parse`, and whether the byte is used up. */
  function OscFed(p: Parser, c: Octet): (r: (Parser, bool))
    requires ParserOk(p)
    ensures ParserOk(r.0)
  {
    var m := p.mode;
    if m.oscEscape then (p.(mode := m.(osc := false, oscEscape := false, escape := m.escape && c != 0x5C)), c == 0x5C)
    else if c == 0x1B then (p.(mode := m.(oscEscape := true)), true)
    else if c == 7 then (p.(mode := m.(osc := false, escape := false)), true)
    else if |p.text| < OSC_SIZE then (p.(text := p.text + [c]), true)
    else (p, true)
  }

  /** The byte after an ESC that did not end the string starts a sequence of its own. */
  function LeftOsc(p: Parser): (r: Parser)
    requires ParserOk(p)
    ensures ParserOk(r)
  {
    p.(mode := p.mode.(offset := 1))
  }

  function NoNumbers(): (r: Numbers)
    ensures NumbersOk(r)
  {
    Numbers(seq<Word>(MAX_VALUES, i => 0), 0, false)
  }

  /** The byte after ESC. */
  function Second(T: Tables, f: Face, p: Parser, c: nat): (r: State)
    requires FaceOk(f) && ParserOk(p)
    ensures StateOk(r) && Keeps(f, r.f)
  {
    var m := p.mode;
    if c == 0x1B then State(f, p.(mode := m.(offset := 0)))
    else if c == 0x5D then State(f, p.(mode := m.(oscEscape := false, osc := true), text := []))
    else if c == 0x5B then State(f, p.(mode := m.(unhandled := false, control := true), nums := NoNumbers()))
    else if c == 0x63 then State(Initial(T, f),
      Parser(GROUND, Numbers(p.nums.values, 0, false), p.text, Utf8.Utf(p.u.cp, 0), 0))
    else if c == 0x28 || c == 0x29 then State(f, p.(mode := m.(escape := false), select := c - 0x27))
    else State(Short(T, f, c), p.(mode := m.(escape := false)))
  }

  /** `escape_parse` */
  function Escaped(T: Tables, s: State, c: Octet): (r: State)
    requires TablesOk(T) && StateOk(s)
    ensures StateOk(r) && Keeps(s.f, r.f)
  {
    var p := s.p.(mode := s.p.mode.(offset := s.p.mode.offset + 1));
    if p.mode.osc && OscFed(p, c).1 then State(s.f, OscFed(p, c).0)
    else
      var q := if p.mode.osc then LeftOsc(OscFed(p, c).0) else p;
      if q.mode.control then Sequenced(T, s.f, q, c) else Second(T, s.f, q, c)
  }

  /** The character set named after `ESC (` or `ESC )`. */
  function Charset(f: Face, g: nat, c: nat): (r: Face)
    requires FaceOk(f) && g < 2
    ensures Keeps(f, r)
  {
    if c == 0x42 then f.(look := f.look.(charsets := f.look.charsets[g := 0]))
    else if c == 0x30 then f.(look := f.look.(charsets := f.look.charsets[g := 1]))
    else f
  }

  /** Nothing to repeat. */
  function Forgotten(f: Face): (r: Face)
    requires FaceOk(f)
    ensures Keeps(f, r)
  {
    f.(graphic := false)
  }

  /** A byte outside escape sequences that belongs to no UTF-8 sequence. */
  function Single(T: Tables, f: Face, p: Parser, c: nat): (r: State)
    requires FaceOk(f) && ParserOk(p)
    ensures StateOk(r) && Keeps(f, r.f)
  {
    var q := p.(select := 0);
    if p.select != 0 && c > 0x1F && c != 0x7F then State(Charset(f, p.select - 1, c), q)
    else if c == 0x1B then State(f, q.(mode := q.mode.(offset := 0, escape := true)))
    else if c < 0x20 then State(Control(Forgotten(f), c), q)
    else if c == 0x7F then State(Forgotten(f), q)
    else State(Character(T, f, c), q)
  }

  /** What the decoder yields. */
  function Handled(T: Tables, s: State, e: Utf8.Event): (r: State)
    requires StateOk(s)
    ensures StateOk(r) && Keeps(s.f, r.f)
  {
    match e
    case Glyph(cp) => State(Printed(T, s.f, cp), s.p)
    case Bad(kept) => State(if kept then Remembered(s.f, BOX, 1) else Shown(s.f, BOX, 1), s.p)
    case Plain(c) => Single(T, s.f, s.p, c)
  }

  function HandledAll(T: Tables, s: State, es: seq<Utf8.Event>): (r: State)
    requires StateOk(s)
    ensures StateOk(r) && Keeps(s.f, r.f)
  {
    if es == [] then s else Handled(T, HandledAll(T, s, es[..|es| - 1]), es[|es| - 1])
  }

  /** A byte outside escape sequences: one step of the decoder. */
  function Decoded(T: Tables, s: State, c: Octet): (r: State)
    requires StateOk(s)
    ensures StateOk(r) && Keeps(s.f, r.f)
  {
    Utf8.StepRem(s.p.u, c);
    HandledAll(T, State(s.f, s.p.(u := Utf8.Step(s.p.u, c).0, select := if 0xC2 <= c <= 0xF4 then 0 else s.p.select)),
      Utf8.Step(s.p.u, c).1)
  }

  /** CAN and SUB, and the byte after `ESC [ [`. */
  function Cancelled(s: State): (r: State)
    requires StateOk(s)
    ensures StateOk(r) && Keeps(s.f, r.f)
  {
    var m := s.p.mode.(discard := false, escape := false, control := false, osc := false, oscEscape := false);
    State(Forgotten(s.f), s.p.(mode := m, u := s.p.u.(rem := 0), select := 0))
  }

  /** `flanterm_putchar` */
  function Fed(T: Tables, s: State, c: Octet): (r: State)
    requires TablesOk(T) && StateOk(s)
    ensures StateOk(r) && Keeps(s.f, r.f)
  {
    if s.p.mode.discard || c == 0x18 || c == 0x1A then Cancelled(s)
    else if s.p.mode.escape then Escaped(T, s, c)
    else Decoded(T, s, c)
  }

  /** The code points that a byte makes the terminal look up. */
  function LookedUp(p: Parser, c: Octet): seq<nat>
  {
    if p.mode.discard || c == 0x18 || c == 0x1A || p.mode.escape then [] else Utf8.Glyphs(Utf8.Step(p.u, c).1)
  }

  function FedAll(T: Tables, s: State, buf: seq<Octet>): (r: State)
    requires TablesOk(T) && StateOk(s)
    ensures StateOk(r) && Keeps(s.f, r.f)
  {
    if buf == [] then s else Fed(T, FedAll(T, s, buf[..|buf| - 1]), buf[|buf| - 1])
  }

  function LookedUpAll(T: Tables, s: State, buf: seq<Octet>): seq<nat>
    requires TablesOk(T) && StateOk(s)
  {
    if buf == [] then []
    else
      LookedUpAll(T, s, buf[..|buf| - 1])
      + LookedUp(FedAll(T, s, buf[..|buf| - 1]).p, buf[|buf| - 1])
  }
}
