/** The escape sequence state machine of the terminal, one byte at a time. */
module Flanterm {
  import opened RowMajor
  import opened TermGrid
  import opened TermQueue
  import opened Term
  import opened TermTheorems
  import opened FlanEdit
  import opened FlanScreen
  import opened FlanSpec
  import Utf8

  class Context {
    const s: Screen
    const tables: Tables
    const esc: array<Word>
    const oscBuf: array<Octet>
    var mode: Mode
    var escI: nat
    var rrr: bool
    var oscI: nat
    var u: Utf8.Utf
    var gSelect: nat
    var look: Look
    var saved: Saved
    var savedX: nat
    var savedY: nat
    var insertMode: bool
    var lastPrinted: nat
    var lastWasGraphic: bool
    /** The code points handed to the glyph lookup. */
    ghost var lookups: seq<nat>

    /** The visible part of the state. */
    ghost function F(): Face
      reads this, s
    {
      Face(s.m, look, saved, savedX, savedY, insertMode, lastPrinted, lastWasGraphic)
    }

    ghost function Nums(): Numbers
      reads this, esc
    {
      Numbers(esc[..], escI, rrr)
    }

    /** The part that only the parser sees. */
    ghost function P(): Parser
      requires oscI <= oscBuf.Length
      reads this, esc, oscBuf
    {
      Parser(mode, Nums(), oscBuf[..oscI], u, gSelect)
    }

    ghost predicate Facing()
      reads this, s, s.t, s.t.grid, s.t.queue, s.t.slot
    {
      s.Valid() && TablesOk(tables) && FaceOk(F())
    }

    ghost predicate Parsing()
      reads this, esc, oscBuf
    {
      oscBuf.Length == OSC_SIZE && oscI <= OSC_SIZE && ParserOk(P())
    }

    /** No index is out of range, whatever bytes have come, and the screen is the plain
        one. */
    ghost predicate Valid()
      reads this, s, s.t, s.t.grid, s.t.queue, s.t.slot, esc, oscBuf
    {
      Facing() && Parsing()
    }

    /** `flanterm_context_reinit` over a new backend. */
    constructor (height: nat, width: nat, p: Pen, tab: Tables)
      requires height > 0 && width > 0 && TablesOk(tab)
      ensures Valid() && mode == GROUND && u.rem == 0 && gSelect == 0 && look == PLAIN && !insertMode
        && !lastWasGraphic && lookups == []
      ensures s.m == Plain(height, width, seq(Rows(height, width), i => Drawn(SPACE, p)), 0, 0, p, 0, height, true,
        true, true) && tables == tab
      ensures fresh(s) && fresh(s.t) && fresh(s.t.grid) && fresh(s.t.queue) && fresh(s.t.slot) && fresh(esc)
        && fresh(oscBuf)
    {
      s := new Screen(height, width, p);
      tables := tab;
      esc, oscBuf := new Word[MAX_VALUES](i => 0), new Octet[OSC_SIZE](i => 0);
      mode, escI, rrr, oscI, u, gSelect := GROUND, 0, false, 0, Utf8.Utf(0, 0), 0;
      look, saved, savedX, savedY := PLAIN, Saved(0, 0, p, PLAIN), 0, 0;
      insertMode, lastPrinted, lastWasGraphic := false, SPACE, false;
      lookups := [];
    }

    // ----- colours -----

    /** `set_text_fg`, `set_text_bg` and their variants. */
    method SetInk(fg: bool, ink: nat)
      requires s.Valid()
      modifies s`m, s.t`pen
      ensures s.Valid() && s.m == old(s.m).(pen := WithInk(old(s.m.pen), fg, ink))
    {
      hide Screen.Valid;
      var pen := s.GetPen();
      s.SetPen(if fg then Pen(ink, pen.bg, false, pen.bgDefault) else Pen(pen.fg, ink, pen.fgDefault, false));
    }

    /** `set_text_fg_default`, `set_text_bg_default` and their bright variants. */
    method SetDefault(fg: bool, light: bool)
      requires s.Valid()
      modifies s`m, s.t`pen
      ensures s.Valid() && s.m == old(s.m).(pen := WithDefault(tables, old(s.m.pen), fg, fg, light))
    {
      hide Screen.Valid;
      var pen := s.GetPen();
      if fg {
        SetInk(true, if light then tables.fgBright else tables.fg);
      } else if light {
        SetInk(false, tables.bgBright);
      } else {
        s.SetPen(pen.(bgDefault := true));
      }
    }

    /** `swap_palette` */
    method SwapPalette()
      requires s.Valid()
      modifies s`m, s.t`pen
      ensures s.Valid() && s.m == old(s.m).(pen := Swapped(old(s.m.pen)))
    {
      hide Screen.Valid;
      var pen := s.GetPen();
      s.SetPen(Pen(pen.bg, pen.fg, pen.bgDefault, pen.fgDefault));
    }

    /** What the colour sequences are about. */
    ghost function Ink(): Paint
      reads this, s
    {
      Paint(look, s.m.pen)
    }

    ghost predicate Inked()
      reads this, s, s.t, s.t.grid, s.t.queue, s.t.slot
    {
      s.Valid() && TablesOk(tables) && LookFits(look)
    }

    /** A change of intensity (1, 22, 5 and 25): the colour in force is set again. */
    method Intensity(text: bool, light: bool)
      requires Inked()
      modifies this`look, s`m, s.t`pen
      ensures Inked() && s.m == old(s.m).(pen := s.m.pen) && Ink() == Intense(tables, old(Ink()), text, light)
    {
      hide Screen.Valid;
      look := if text then look.(bold := light) else look.(bgBold := light);
      var colour := if text then look.primary else look.bg;
      var side := if look.reverse then !text else text;
      if colour == DIRECT {
      } else if colour != DEFAULT {
        SetInk(side, if light then tables.bright[colour] else tables.ansi[colour]);
      } else {
        SetDefault(side, light);
      }
    }

    /** One of the eight colours (30 to 37, 40 to 47, 90 to 97 and 100 to 107). */
    method Palette(text: bool, k: nat, light: bool)
      requires Inked() && k < 8
      modifies this`look, s`m, s.t`pen
      ensures Inked() && s.m == old(s.m).(pen := s.m.pen) && Ink() == Tinted(tables, old(Ink()), text, k, light)
    {
      hide Screen.Valid;
      look := if text then look.(primary := k) else look.(bg := k);
      var side := if look.reverse then !text else text;
      var strong := if side then (look.bold && !look.reverse) || (look.bgBold && look.reverse)
        else (look.bold && look.reverse) || (look.bgBold && !look.reverse);
      SetInk(side, if light || strong then tables.bright[k] else tables.ansi[k]);
    }

    /** The default colours (39 and 49). */
    method DefaultColour(text: bool)
      requires Inked()
      modifies this`look, s`m, s.t`pen
      ensures Inked() && s.m == old(s.m).(pen := s.m.pen) && Ink() == Untinted(tables, old(Ink()), text)
    {
      hide Screen.Valid;
      look := if text then look.(primary := DEFAULT) else look.(bg := DEFAULT);
      if look.reverse { SwapPalette(); }
      SetDefault(text, if text then look.bold else look.bgBold);
      if look.reverse { SwapPalette(); }
    }

    method SetReverse(on: bool)
      requires Inked()
      modifies this`look, s`m, s.t`pen
      ensures Inked() && s.m == old(s.m).(pen := s.m.pen) && Ink() == Reversed(old(Ink()), on)
    {
      hide Screen.Valid;
      if look.reverse != on {
        look := look.(reverse := on);
        SwapPalette();
      }
    }

    method ResetColours()
      requires Inked()
      modifies this`look, s`m, s.t`pen
      ensures Inked() && s.m == old(s.m).(pen := s.m.pen) && Ink() == Unpainted(tables, old(Ink()))
    {
      hide Screen.Valid;
      SetReverse(false);
      look := look.(bold := false, bgBold := false, primary := DEFAULT, bg := DEFAULT);
      SetDefault(false, false);
      SetDefault(true, false);
    }

    /** One value of `sgr` that stands for itself. */
    method Attribute(v: nat)
      requires Inked()
      modifies this`look, s`m, s.t`pen
      ensures Inked() && s.m == old(s.m).(pen := s.m.pen) && Ink() == Attributed(tables, old(Ink()), v)
    {
      hide Screen.Valid, Intense, Tinted, Untinted, Reversed, Unpainted;
      if v == 0 { ResetColours(); }
      else if v == 1 { Intensity(true, true); }
      else if v == 5 { Intensity(false, true); }
      else if v == 22 { Intensity(true, false); }
      else if v == 25 { Intensity(false, false); }
      else if 30 <= v <= 37 { Palette(true, v - 30, false); }
      else if 40 <= v <= 47 { Palette(false, v - 40, false); }
      else if 90 <= v <= 97 { Palette(true, v - 90, true); }
      else if 100 <= v <= 107 { Palette(false, v - 100, true); }
      else if v == 39 { DefaultColour(true); }
      else if v == 49 { DefaultColour(false); }
      else if v == 7 { SetReverse(true); }
      else if v == 27 { SetReverse(false); }
    }

    method SetDirect(text: bool, ink: nat)
      requires Inked()
      modifies this`look, s`m, s.t`pen
      ensures Inked() && s.m == old(s.m).(pen := s.m.pen) && Ink() == Dyed(old(Ink()), text, ink)
    {
      hide Screen.Valid;
      look := if text then look.(primary := DIRECT) else look.(bg := DIRECT);
      SetInk(if look.reverse then !text else text, ink);
    }

    /** A colour of 256. */
    method SetIndexed(text: bool, k: nat)
      requires Inked()
      modifies this`look, s`m, s.t`pen
      ensures Inked() && s.m == old(s.m).(pen := s.m.pen) && Ink() == Indexed(tables, old(Ink()), text, k)
    {
      hide Screen.Valid, Dyed;
      if k < 8 {
        SetDirect(text, tables.ansi[k]);
      } else if k < 16 {
        SetDirect(text, tables.bright[k - 8]);
      } else if k < 256 {
        SetDirect(text, tables.convert(tables.cube[k - 16]));
      }
    }

    /** `sgr` */
    method Sgr()
      requires Facing() && escI <= esc.Length
      modifies this`look, s`m, s.t`pen
      ensures Facing() && F() == FlanSpec.Sgr(tables, old(F()), esc[..escI])
    {
      hide Screen.Valid, Fits, Rows, Attributed, Indexed, Dyed, Unpainted, Painted;
      if escI == 0 {
        ResetColours();
      } else {
        PaintAll();
      }
    }

    /** The loop of `sgr`. */
    method PaintAll()
      requires Inked() && escI <= esc.Length
      modifies this`look, s`m, s.t`pen
      ensures Inked() && s.m == old(s.m).(pen := s.m.pen) && Ink() == Painted(tables, old(Ink()), esc[..escI])
    {
      hide Screen.Valid, Attributed, Indexed, Dyed, Painted;
      ghost var vs := esc[..escI];
      assert vs[0..] == vs;
      var i := 0;
      while i < escI
        invariant Inked() && i <= escI && s.m == old(s.m).(pen := s.m.pen)
        invariant Painted(tables, old(Ink()), vs) == Painted(tables, Ink(), vs[i..])
      {
        var v := esc[i];
        if v != 38 && v != 48 {
          PaintedOne(tables, Ink(), vs, i);
          Attribute(v);
          i := i + 1;
        } else {
          PaintedTwo(tables, Ink(), vs, i);
          if i + 1 >= escI { return; }
          if esc[i + 1] == 2 {
            if i + 4 >= escI { return; }
            SetDirect(v == 38, tables.convert(esc[i + 2] % 256 * 0x1_0000 + esc[i + 3] % 256 * 0x100
              + esc[i + 4] % 256));
            i := i + 5;
          } else if esc[i + 1] == 5 {
            if i + 2 >= escI { return; }
            SetIndexed(v == 38, esc[i + 2]);
            i := i + 3;
          } else {
            i := i + 2;
          }
        }
      }
      assert vs[i..] == [];
      PaintedNone(tables, Ink());
    }

    // ----- saved state, modes and control characters -----

    /** `save_state` */
    method SaveState()
      requires Facing()
      modifies this`saved
      ensures Facing() && F() == Saving(old(F()))
    {
      hide Screen.Valid, Fits, Rows;
      var pen, x, y := s.SaveState();
      saved := Saved(x, y, pen, look);
    }

    /** `restore_state` */
    method RestoreState()
      requires Facing()
      modifies this`look, s`m, s.t`pen, s.t`cursorX, s.t`cursorY
      ensures Facing() && F() == Restoring(old(F()))
    {
      hide Screen.Valid, Fits, Rows;
      look := saved.look;
      s.RestoreState(saved.pen, saved.x, saved.y);
    }

    /** One value of `dec_private_parse`. */
    method DecMode(v: nat, on: bool)
      requires Facing()
      modifies this`look, this`saved, s`m, s.t, s.t.queue, s.t.slot
      ensures Facing() && F() == FlanSpec.DecMode(old(F()), v, on)
    {
      hide Screen.Valid, Fits, Rows, Cleared, LookFits, Clamped;
      if v == 6 {
        SetOrigin(on);
      } else if v == 7 {
        var scroll, wrap := s.Modes();
        s.SetModes(scroll, on);
      } else if v == 25 {
        s.SetCursorMode(on);
      } else if v == 1049 {
        if on {
          SaveState();
          s.Clear(true);
        } else {
          s.Clear(true);
          RestoreState();
        }
      }
    }

    method SetOrigin(on: bool)
      requires Facing()
      modifies this`look, s`m, s.t`cursorX, s.t`cursorY
      ensures Facing() && F() == FlanSpec.DecMode(old(F()), 6, on)
    {
      hide Screen.Valid, Fits, Rows, Clamped;
      var top, bottom := s.Margins();
      look := look.(origin := on);
      s.SetCursorPos(0, if on then top else 0);
    }

    /** The loop of `dec_private_parse`. */
    method DecPrivate(on: bool)
      requires Facing() && escI <= esc.Length
      modifies this`look, this`saved, s`m, s.t, s.t.queue, s.t.slot
      ensures Facing() && F() == DecModes(old(F()), esc[..escI], on)
    {
      hide Screen.Valid, FaceOk, FlanSpec.DecMode;
      assert esc[..0] == [];
      for i := 0 to escI
        invariant Facing() && F() == DecModes(old(F()), esc[..i], on)
      {
        assert esc[..i + 1][..i] == esc[..i];
        DecMode(esc[i], on);
      }
    }

    /** A line feed, with the cursor in column x afterwards. */
    method LineFeed(x: nat)
      requires s.Valid()
      modifies s`m, s.t, s.t.queue, s.t.slot
      ensures s.Valid() && Proper(old(s.m)) && s.m == LineFed(old(s.m), x)
    {
      hide Fits, Rows, Agrees, Rolled, Clamped;
      var rows, cols := s.Size();
      var top, bottom := s.Margins();
      var _, y := s.GetCursorPos();
      if y == bottom - 1 {
        s.Scroll(true);
        s.SetCursorPos(x, y);
      } else if y < rows - 1 {
        s.SetCursorPos(x, y + 1);
      }
    }

    /** `execute_c0` */
    method ExecuteC0(c: nat)
      requires Facing()
      modifies this`look, s`m, s.t, s.t.queue, s.t.slot
      ensures Facing() && F() == Control(old(F()), c)
    {
      hide Screen.Valid, Fits, Rows, Clamped, LineFed, Column;
      var rows, cols := s.Size();
      var x, y := s.GetCursorPos();
      if c == 8 {
        if x > 0 {
          s.SetCursorPos(x - 1, y);
        }
      } else if c == 9 {
        var next := (x / 8 + 1) * 8;
        s.SetCursorPos(if next >= cols then cols - 1 else next, y);
      } else if 10 <= c <= 12 {
        LineFeed(x);
      } else if c == 13 {
        s.SetCursorPos(0, y);
      } else if c == 14 {
        look := look.(charset := 1);
      } else if c == 15 {
        look := look.(charset := 0);
      }
    }

    // ----- control sequences -----

    /** The cursor movements: the destination is on the screen, and inside the margins in
        origin mode. */
    method MoveCursor(c: nat, n: nat, m: nat)
      requires s.Valid() && IsMove(c)
      modifies s`m, s.t`cursorX, s.t`cursorY
      ensures s.Valid() && Proper(old(s.m)) && s.m == Travelled(old(s.m), look.origin, c, n, m)
    {
      hide Agrees, Fits, Rows, Clamped;
      var rows, cols := s.Size();
      var top, bottom := s.Margins();
      var x, y := s.GetCursorPos();
      if c == CUU || c == CPL {
        var up := if n > y then y else n;
        var least := if look.origin then top else 0;
        s.SetCursorPos(if c == CPL then 0 else x, if y - up < least then least else y - up);
      } else if c == CUD || c == VPR || c == CNL {
        var down := if y + n > rows - 1 then rows - 1 - y else n;
        var limit := if look.origin then bottom else rows;
        s.SetCursorPos(if c == CNL then 0 else x, if y + down >= limit then limit - 1 else y + down);
      } else if c == CUF || c == HPR {
        s.SetCursorPos(x + (if x + n > cols - 1 then cols - 1 - x else n), y);
      } else if c == CUB {
        s.SetCursorPos(x - (if n > x then x else n), y);
      } else {
        Absolute(c, n, m);
      }
    }

    /** Absolute positions, counted from one. */
    method Absolute(c: nat, n: nat, m: nat)
      requires s.Valid() && IsAbsolute(c)
      modifies s`m, s.t`cursorX, s.t`cursorY
      ensures s.Valid() && Proper(old(s.m)) && s.m == Travelled(old(s.m), look.origin, c, n, m)
    {
      hide Agrees, Fits, Rows, Clamped;
      var rows, cols := s.Size();
      var top, bottom := s.Margins();
      var x, y := s.GetCursorPos();
      var lines := if look.origin then bottom - top else rows;
      var first := if look.origin then top else 0;
      var row := if n != 0 then n - 1 else 0;
      if c == VPA {
        s.SetCursorPos(x, (if row >= lines then lines - 1 else row) + first);
      } else if c == CHA || c == HPA {
        s.SetCursorPos(if row >= cols then cols - 1 else row, y);
      } else {
        var col := if m != 0 then m - 1 else 0;
        s.SetCursorPos(if col >= cols then cols - 1 else col, (if row >= lines then lines - 1 else row) + first);
      }
    }

    /** `CSI r` */
    method SetMargins()
      requires Facing() && esc.Length == MAX_VALUES && esc[0] >= 1 && esc[1] >= 1
      modifies s`m, s.t`top, s.t`bottom, s.t`cursorX, s.t`cursorY
      ensures Facing() && F() == Margined(old(F()), esc[..], escI)
    {
      hide Screen.Valid, Fits, Rows, LookFits, Clamped;
      var rows, cols := s.Size();
      var top: nat, bottom: nat := 0, rows;
      if escI > 0 {
        top := esc[0] - 1;
      }
      if escI > 1 {
        bottom := esc[1];
      }
      if top >= rows || bottom > rows || top >= bottom - 1 {
        top, bottom := 0, rows;
      }
      s.SetMargins(top, bottom);
      s.SetCursorPos(0, if look.origin then top else 0);
    }

    /** Inserting and deleting lines at the cursor, inside the margins only. */
    method Lines(c: nat, n: nat)
      requires s.Valid() && IsLines(c)
      modifies s`m, s.t, s.t.queue, s.t.slot
      ensures s.Valid() && Proper(old(s.m)) && s.m == Lined(old(s.m), c, n)
    {
      hide Agrees, Fits, Rows, Deleted, Inserted;
      var top, bottom := s.Margins();
      var _, y := s.GetCursorPos();
      if c == DL || c == IL {
        if y < top || y >= bottom {
          return;
        }
        s.SetMargins(y, bottom);
        s.ScrollTimes(if n > bottom - y then bottom - y else n, c == DL);
        s.SetMargins(top, bottom);
      } else {
        s.ScrollTimes(if n > bottom - top then bottom - top else n, c == SU);
      }
    }

    /** The final bytes that act on cells. */
    method Edit(c: nat, n: nat)
      requires s.Valid() && IsEdit(c) && (c == DCH ==> n >= 1)
      modifies s`m, s.t, s.t.queue, s.t.slot
      ensures s.Valid() && Proper(old(s.m)) && s.m == Edited(old(s.m), c, n)
    {
      hide Agrees, Fits, Rows, PageErased, LineErased, CharsInserted, CharsDeleted, CharsErased;
      var x, y := s.GetCursorPos();
      if c == ED {
        s.EraseDisplay(n, x, y);
      } else if c == EL {
        s.EraseLine(n, x, y);
      } else if c == ICH {
        s.InsertChars(n, x, y);
      } else if c == DCH {
        s.DeleteChars(n, x, y);
      } else {
        s.EraseChars(n, x, y);
      }
    }

    /** `mode_toggle` */
    method ModeToggle(c: nat)
      requires esc.Length == MAX_VALUES
      modifies this`insertMode
      ensures insertMode == if escI > 0 && (c == SM || c == RM) && esc[0] == 4 then c == SM else old(insertMode)
    {
      if escI == 0 || (c != SM && c != RM) {
        return;
      }
      if esc[0] == 4 {
        insertMode := c == SM;
      }
    }

    /** `insert_shift` */
    method InsertShift(count: int)
      requires s.Valid()
      modifies s`m, s.t, s.t.queue, s.t.slot
      ensures s.Valid() && Proper(old(s.m)) && s.m == if insertMode && count > 0 then Spread(old(s.m), count)
        else old(s.m)
    {
      hide Agrees, Spread;
      if insertMode && count > 0 {
        s.ShiftRight(count);
      }
    }

    /** `CSI b`: the last character again. */
    method Repeat(n: nat)
      requires Facing() && lastWasGraphic
      modifies s`m, s.t, s.t.queue, s.t.slot
      ensures Facing() && F() == Repeated(old(F()), if n > old(s.m.cols) then old(s.m.cols) else n)
    {
      hide Screen.Valid, Proper, Spread, Typed;
      var rows, cols := s.Size();
      for i := 0 to if n > cols then cols else n
        invariant Facing() && F() == Repeated(old(F()), i)
      {
        InsertShift(1);
        s.RawPutchar(lastPrinted);
      }
    }

    /** The cases of the switch of `control_sequence_parse` for cursor, cells and lines. */
    method Final(c: nat)
      requires Facing() && esc.Length == MAX_VALUES && escI <= MAX_VALUES
        && (!ZeroDefault(c) ==> esc[0] >= 1 && esc[1] >= 1) && c != REP
      modifies this`look, this`savedX, this`savedY, this`insertMode, s`m, s.t, s.t.queue, s.t.slot
      ensures Facing() && F() == Performed(tables, old(F()), c, esc[..], escI)
    {
      hide Screen.Valid, Fits, Rows, Travelled, Edited, Lined, FlanSpec.Sgr, Margined, LookFits, Column, Clamped;
      if IsMove(c) {
        MoveCursor(c, esc[0], esc[1]);
      } else if IsEdit(c) {
        Edit(c, esc[0]);
      } else if IsLines(c) {
        Lines(c, esc[0]);
      } else if c == SGR {
        assert esc[..][..escI] == esc[..escI];
        Sgr();
      } else if c == SCP {
        savedX, savedY := s.GetCursorPos();
      } else if c == RCP {
        s.SetCursorPos(savedX, savedY);
      } else if c == DECSTBM {
        SetMargins();
      } else if c == RM || c == SM {
        ModeToggle(c);
      }
    }

    /** The switch of `control_sequence_parse`: scrolling is off meanwhile, except for the
        repetition. */
    method Dispatch(c: nat)
      requires Facing() && esc.Length == MAX_VALUES && escI <= MAX_VALUES
        && (!ZeroDefault(c) ==> esc[0] >= 1 && esc[1] >= 1)
      modifies this`look, this`savedX, this`savedY, this`insertMode, s`m, s.t, s.t.queue, s.t.slot
      ensures Facing() && F() == Performed(tables, old(F()), c, esc[..], escI)
    {
      hide Screen.Valid, Fits, Rows, Performed, Repeated, LookFits;
      PerformedQuiet(tables, F(), c, esc[..], escI);
      if c == REP {
        if lastWasGraphic {
          Repeat(esc[0]);
        }
        return;
      }
      var scroll, wrap := s.Modes();
      s.SetModes(false, true);
      Final(c);
      s.SetModes(scroll, wrap);
    }

    /** A digit of a value. */
    method Digit(c: nat)
      requires Parsing() && 0x30 <= c <= 0x39
      modifies this`rrr, esc
      ensures Parsing() && Nums() == FlanSpec.Digit(old(Nums()), c - 0x30)
    {
      if escI == MAX_VALUES {
        return;
      }
      rrr := true;
      if esc[escI] > 0xFFFF_FFFF / 10 {
        return;
      }
      var v := esc[escI] * 10 + (c - 0x30);
      esc[escI] := if v > 0xFFFF_FFFF then 0xFFFF_FFFF else v;
    }

    /** The end of a value: true if the byte was only that. */
    method Separator(c: nat) returns (done: bool)
      requires Parsing()
      modifies this`rrr, this`escI, esc
      ensures Parsing() && (done <==> c == 0x3B) && Nums() == if done then Separated(old(Nums()))
        else Closed(old(Nums()))
    {
      if rrr {
        escI := escI + 1;
        rrr := false;
        return c == 0x3B;
      }
      if c == 0x3B {
        if escI < MAX_VALUES {
          esc[escI] := 0;
          escI := escI + 1;
        }
        return true;
      }
      return false;
    }

    /** Missing values, and zeros where one is the least, become the default. */
    method Defaults(c: nat)
      requires Parsing()
      modifies esc
      ensures Parsing() && Nums() == Filled(old(Nums()), c)
    {
      ghost var k := Nums();
      var least := if ZeroDefault(c) then 0 else 1;
      for i := escI to MAX_VALUES
        invariant Parsing() && (forall j :: escI <= j < i ==> esc[j] == least) && forall j :: 0 <= j < escI ==>
          esc[j] == k.values[j]
      {
        esc[i] := least;
      }
      if least != 0 {
        for i := 0 to escI
          invariant Parsing() && (forall j :: escI <= j < MAX_VALUES ==> esc[j] == 1)
          invariant (forall j :: 0 <= j < i ==> esc[j] == Value(k, j, 1)) && forall j :: i <= j < escI ==>
            esc[j] == k.values[j]
        {
          if esc[i] == 0 {
            esc[i] := least;
          }
        }
      }
      assert esc[..] == Filled(k, c).values;
    }

    /** The end of a DEC private sequence. */
    method DecFinal(c: nat)
      requires Valid() && mode.dec
      modifies this`mode, this`look, this`saved, s`m, s.t, s.t.queue, s.t.slot
      ensures Valid() && F() == Ended(tables, old(F()), old(mode), Nums(), c) && mode == EndedMode(old(mode), c)
    {
      hide Screen.Valid, FaceOk, DecModes, Performed;
      if 0x20 <= c <= 0x2F {
        mode := mode.(dec := false, unhandled := true);
        return;
      }
      mode := mode.(dec := false);
      assert esc[..][..escI] == esc[..escI];
      DecModesNone(F(), c == SM);
      if escI > 0 && (c == SM || c == RM) {
        DecPrivate(c == SM);
      }
      mode := mode.(control := false, escape := false);
    }

    /** The end of a sequence that is not handled. */
    method SkipFinal(c: nat)
      requires Valid() && !mode.dec && mode.unhandled
      modifies this`mode
      ensures Valid() && F() == old(F()) && mode == EndedMode(old(mode), c)
    {
      hide Screen.Valid, FaceOk, NumbersOk;
      if c == 0x1B {
        mode := mode.(unhandled := false, control := false, offset := 0);
      } else if 0x40 <= c <= 0x7E {
        mode := mode.(unhandled := false, control := false, escape := false);
      }
    }

    /** The end of an ordinary sequence. */
    method PlainFinal(c: nat)
      requires Valid() && !mode.dec && !mode.unhandled && (!ZeroDefault(c) ==> esc[0] >= 1 && esc[1] >= 1)
      modifies this`mode, this`look, this`savedX, this`savedY, this`insertMode, s`m, s.t, s.t.queue, s.t.slot
      ensures Valid() && F() == Ended(tables, old(F()), old(mode), Nums(), c) && mode == EndedMode(old(mode), c)
    {
      hide Screen.Valid, FaceOk, Performed, ZeroDefault;
      if c == 0x1B {
        mode := mode.(control := false, offset := 0);
      } else if !(0x40 <= c <= 0x7E) {
        mode := mode.(unhandled := true);
      } else {
        Dispatch(c);
        mode := mode.(control := false, escape := false);
      }
    }

    /** The rest of `control_sequence_parse`, once the values are complete. */
    method FinalByte(c: nat)
      requires Valid() && (!ZeroDefault(c) ==> esc[0] >= 1 && esc[1] >= 1)
      modifies this`mode, this`look, this`saved, this`savedX, this`savedY, this`insertMode, s`m, s.t, s.t.queue,
        s.t.slot
      ensures Valid() && F() == Ended(tables, old(F()), old(mode), Nums(), c) && mode == EndedMode(old(mode), c)
    {
      hide Screen.Valid, FaceOk, DecModes, Performed, NumbersOk, ZeroDefault, EndedMode;
      if mode.dec {
        DecFinal(c);
      } else if mode.unhandled {
        SkipFinal(c);
      } else {
        PlainFinal(c);
      }
    }

    /** `control_sequence_parse` */
    method ControlSequence(c: nat)
      requires Valid()
      modifies this`mode, this`rrr, this`escI, this`look, this`saved, this`savedX, this`savedY, this`insertMode, s`m,
        s.t, s.t.queue, s.t.slot, esc
      ensures Valid() && State(F(), P()) == Sequenced(tables, old(F()), old(P()), c)
    {
      hide Screen.Valid, FaceOk, Ended, EndedMode, Control, FlanSpec.Digit, Separated, Closed, Filled, NumbersOk;
      if mode.offset == 2 && c == 0x5B {
        mode := mode.(discard := true, control := false, escape := false);
        return;
      }
      if mode.offset == 2 && c == 0x3F {
        mode := mode.(dec := true);
        return;
      }
      if c < 0x20 && c != 0x1B {
        ExecuteC0(c);
        return;
      }
      if 0x30 <= c <= 0x39 {
        Digit(c);
        return;
      }
      SequenceEnd(c);
    }

    /** A separator, or the byte that ends the values. */
    method SequenceEnd(c: nat)
      requires Valid() && !(0x30 <= c <= 0x39)
      modifies this`mode, this`rrr, this`escI, this`look, this`saved, this`savedX, this`savedY, this`insertMode, s`m,
        s.t, s.t.queue, s.t.slot, esc
      ensures Valid() && (c == 0x3B ==> F() == old(F()) && mode == old(mode) && Nums() == Separated(old(Nums())))
      ensures var k := Filled(Closed(old(Nums())), c);
        (c != 0x3B ==>
          Nums() == k && F() == Ended(tables, old(F()), old(mode), k, c)
          && mode == EndedMode(old(mode), c))
    {
      hide Screen.Valid, FaceOk, Ended, EndedMode, Separated, Closed;
      var done := Separator(c);
      if done {
        return;
      }
      FilledLeast(Nums(), c);
      Defaults(c);
      FinalByte(c);
    }

    // ----- escape sequences -----

    /** `osc_parse`: the buffer never overflows. */
    method OscParse(c: Octet) returns (consumed: bool)
      requires Parsing()
      modifies this`mode, this`oscI, oscBuf
      ensures Parsing() && P() == OscFed(old(P()), c).0 && consumed == OscFed(old(P()), c).1
    {
      ghost var text := oscBuf[..oscI];
      if mode.oscEscape {
        mode := mode.(oscEscape := false, osc := false);
        if c == 0x5C {
          mode := mode.(escape := false);
          return true;
        }
        return false;
      }
      if c == 0x1B {
        mode := mode.(oscEscape := true);
      } else if c == 7 {
        mode := mode.(oscEscape := false, osc := false, escape := false);
      } else if oscI < oscBuf.Length {
        oscBuf[oscI] := c;
        oscI := oscI + 1;
        assert oscBuf[..oscI] == text + [c];
      }
      return true;
    }

    /** The parser fields of `flanterm_context_reinit`. */
    method ResetParser()
      requires Parsing()
      modifies this`mode, this`escI, this`rrr, this`u, this`gSelect
      ensures Parsing() && P() == Parser(GROUND, Numbers(old(Nums()).values, 0, false), old(P()).text,
        Utf8.Utf(old(u.cp), 0), 0)
    {
      mode, escI, rrr, u, gSelect := GROUND, 0, false, u.(rem := 0), 0;
    }

    method ResetFields()
      requires Facing()
      modifies this`look, this`savedX, this`savedY, this`insertMode, this`lastPrinted, this`lastWasGraphic
      ensures Facing() && F() == Face(old(s.m), PLAIN, old(saved), 0, 0, false, SPACE, false)
    {
      hide Screen.Valid, Fits, Rows;
      look, savedX, savedY, insertMode, lastPrinted, lastWasGraphic := PLAIN, 0, 0, false, SPACE, false;
    }

    method ResetScreen()
      requires s.Valid()
      modifies s`m, s.t
      ensures s.Valid() && Proper(old(s.m))
        && s.m == Bounded(old(s.m), 0, old(s.m.rows)).(cursor := true, wrap := true, scroll := true)
    {
      hide Agrees, Fits, Rows;
      var rows, cols := s.Size();
      s.SetModes(true, true);
      s.SetMargins(0, rows);
      s.SetCursorMode(true);
    }

    /** `ESC c`: back to the initial state. */
    method Reset()
      requires Facing()
      modifies this`look, this`saved, this`savedX, this`savedY, this`insertMode, this`lastPrinted,
        this`lastWasGraphic, s`m, s.t, s.t.queue, s.t.slot
      ensures Facing() && F() == Initial(tables, old(F()))
    {
      hide Screen.Valid, Fits, Rows, Cleared;
      if look.reverse {
        SwapPalette();
      }
      ResetFields();
      ResetScreen();
      SetDefault(false, false);
      SetDefault(true, false);
      s.Clear(true);
      SaveState();
    }

    /** Escape sequences of two bytes that act on the screen. */
    method ShortEscape(c: nat)
      requires Facing() && c != 0x63
      modifies this`look, this`saved, s`m, s.t, s.t.queue, s.t.slot
      ensures Facing() && F() == Short(tables, old(F()), c)
    {
      hide Screen.Valid, Fits, Rows, LookFits, Rolled, Clamped;
      var rows, cols := s.Size();
      var top, bottom := s.Margins();
      var x, y := s.GetCursorPos();
      if c == 0x37 {
        SaveState();
      } else if c == 0x38 {
        RestoreState();
      } else if c == 0x44 {
        LineFeed(x);
      } else if c == 0x45 {
        if y == rows - 1 && y != bottom - 1 {
          s.SetCursorPos(0, y);
        } else {
          LineFeed(0);
        }
      } else if c == 0x4D {
        if y == top {
          s.Scroll(false);
          s.SetCursorPos(x, y);
        } else if y > 0 {
          s.SetCursorPos(x, y - 1);
        }
      }
    }

    /** `ESC [` */
    method StartSequence()
      requires Parsing()
      modifies this`mode, this`escI, this`rrr, esc
      ensures Parsing() && P() == old(P()).(mode := old(mode).(unhandled := false, control := true), nums :=
        NoNumbers())
    {
      for i := 0 to MAX_VALUES
        invariant Parsing() && P() == old(P()).(nums := Nums()) && escI == old(escI) && rrr == old(rrr) && forall j ::
          0 <= j < i ==> esc[j] == 0
      {
        esc[i] := 0;
      }
      assert esc[..] == NoNumbers().values;
      escI, rrr := 0, false;
      mode := mode.(unhandled := false, control := true);
    }

    /** The byte after ESC. */
    method SecondByte(c: nat)
      requires Valid()
      modifies this`mode, this`escI, this`rrr, this`oscI, this`u, this`gSelect, this`look, this`saved, this`savedX,
        this`savedY, this`insertMode, this`lastPrinted, this`lastWasGraphic, s`m, s.t, s.t.queue, s.t.slot, esc
      ensures Valid() && State(F(), P()) == Second(tables, old(F()), old(P()), c)
    {
      hide Screen.Valid, FaceOk, Short, Initial, NoNumbers, NumbersOk;
      if c == 0x1B {
        mode := mode.(offset := 0);
      } else if c == 0x5D {
        mode := mode.(oscEscape := false, osc := true);
        oscI := 0;
      } else if c == 0x5B {
        StartSequence();
      } else if c == 0x63 {
        ResetParser();
        Reset();
      } else if c == 0x28 || c == 0x29 {
        gSelect := c - 0x27;
        mode := mode.(escape := false);
      } else {
        ShortEscape(c);
        mode := mode.(escape := false);
      }
    }

    /** A byte of an escape sequence that is no string. */
    method Onward(c: nat)
      requires Valid()
      modifies this`mode, this`escI, this`rrr, this`oscI, this`u, this`gSelect, this`look, this`saved, this`savedX,
        this`savedY, this`insertMode, this`lastPrinted, this`lastWasGraphic, s`m, s.t, s.t.queue, s.t.slot, esc
      ensures Valid() && State(F(), P()) == if old(mode.control) then Sequenced(tables, old(F()), old(P()), c)
        else Second(tables, old(F()), old(P()), c)
    {
      hide Screen.Valid, FaceOk, Second, Sequenced, ParserOk;
      if mode.control {
        ControlSequence(c);
      } else {
        SecondByte(c);
      }
    }

    /** `escape_parse` */
    method EscapeParse(c: Octet)
      requires Valid()
      modifies this`mode, this`escI, this`rrr, this`oscI, this`u, this`gSelect, this`look, this`saved, this`savedX,
        this`savedY, this`insertMode, this`lastPrinted, this`lastWasGraphic, s`m, s.t, s.t.queue, s.t.slot, esc, oscBuf
      ensures Valid() && State(F(), P()) == Escaped(tables, old(State(F(), P())), c)
    {
      hide Screen.Valid, FaceOk, Second, Sequenced, OscFed, NumbersOk;
      mode := mode.(offset := mode.offset + 1);
      if mode.osc {
        var consumed := OscParse(c);
        if consumed {
          return;
        }
        mode := mode.(offset := 1);
      }
      Onward(c);
    }

    // ----- characters -----

    /** A character that the repetition goes back to. */
    method Print(g: nat, room: int)
      requires Facing() && room > 0
      modifies this`lastPrinted, this`lastWasGraphic, s`m, s.t, s.t.queue, s.t.slot
      ensures Facing() && F() == Remembered(old(F()), g, room)
    {
      hide Screen.Valid, Fits, Rows, LookFits, Spread, Typed;
      InsertShift(room);
      lastPrinted, lastWasGraphic := g, true;
      s.RawPutchar(g);
    }

    /** The glyph of a code point, or the replacement in its width. */
    method PrintCode(cp: nat)
      requires Facing()
      modifies this`lastPrinted, this`lastWasGraphic, this`lookups, s`m, s.t, s.t.queue, s.t.slot
      ensures Facing() && F() == Printed(tables, old(F()), cp) && lookups == old(lookups) + [cp]
    {
      hide Screen.Valid, Fits, Rows, LookFits, Remembered, Typed;
      lookups := lookups + [cp];
      var g := tables.cp437(cp);
      if g >= 0 {
        Print(g, 1);
        return;
      }
      var w := tables.width(cp);
      if w > 0 {
        Print(BOX, w);
        ghost var b := F();
        for i := 1 to w
          invariant Facing() && F() == b.(m := s.m) && s.m == Spaces(b.m, i - 1) && lookups == old(lookups) + [cp]
        {
          s.RawPutchar(SPACE);
        }
      }
    }

    /** A character of the current set. */
    method PrintPlain(c: nat)
      requires Facing()
      modifies this`lastPrinted, this`lastWasGraphic, s`m, s.t, s.t.queue, s.t.slot
      ensures Facing() && F() == Character(tables, old(F()), c)
    {
      hide Screen.Valid, Fits, Rows, Remembered;
      if look.charsets[look.charset] == 1 && tables.decSpecial(c) >= 0 {
        Print(tables.decSpecial(c), 1);
      } else if c <= 0x7E {
        Print(c, 1);
      } else {
        Print(BOX, 1);
      }
    }

    /** The replacement character, kept for repetition or not. */
    method PrintBad(kept: bool)
      requires Facing()
      modifies this`lastPrinted, this`lastWasGraphic, s`m, s.t, s.t.queue, s.t.slot
      ensures Facing() && F() == if kept then Remembered(old(F()), BOX, 1) else Shown(old(F()), BOX, 1)
    {
      hide Screen.Valid, Fits, Rows, LookFits, Spread, Typed;
      InsertShift(1);
      if kept {
        lastPrinted, lastWasGraphic := BOX, true;
      }
      s.RawPutchar(BOX);
    }

    /** The character set named after `ESC (` or `ESC )`. */
    method SelectCharset(c: nat)
      requires Facing() && 0 < gSelect <= 2
      modifies this`look
      ensures Facing() && F() == Charset(old(F()), gSelect - 1, c)
    {
      hide Screen.Valid, Fits, Rows;
      if c == 0x42 {
        look := look.(charsets := look.charsets[gSelect - 1 := 0]);
      } else if c == 0x30 {
        look := look.(charsets := look.charsets[gSelect - 1 := 1]);
      }
    }

    method Forget()
      requires Facing()
      modifies this`lastWasGraphic
      ensures Facing() && F() == Forgotten(old(F()))
    {
      hide Screen.Valid, Fits, Rows, LookFits;
      lastWasGraphic := false;
    }

    /** The end of `flanterm_putchar`: control characters and plain characters. */
    method PlainByte(c: nat)
      requires Valid()
      modifies this`gSelect, this`look, this`lastWasGraphic, this`lastPrinted, this`mode, s`m, s.t, s.t.queue, s.t.slot
      ensures Valid() && State(F(), P()) == Single(tables, old(F()), old(P()), c)
    {
      hide Screen.Valid, FaceOk, Charset, Control, Forgotten, Character, NumbersOk;
      if gSelect != 0 {
        if c <= 0x1F || c == 0x7F {
          gSelect := 0;
        } else {
          SelectCharset(c);
          gSelect := 0;
          return;
        }
      }
      if (c <= 0x1F && c != 0x1B) || c == 0x7F {
        Forget();
      }
      if c == 0 || c == 0x7F {
        ControlNothing(F(), c);
        return;
      }
      if c == 0x1B {
        mode := mode.(offset := 0, escape := true);
        return;
      }
      if c < 0x20 {
        ExecuteC0(c);
        return;
      }
      PrintPlain(c);
    }

    /** A byte that continues a UTF-8 sequence; true if it is to be taken on its own after
        all. */
    method TailByte(c: nat) returns (goesOn: bool)
      requires Facing() && 0 < u.rem && Utf8.Tail(c)
      modifies this`u, this`lastPrinted, this`lastWasGraphic, this`lookups, s`m, s.t, s.t.queue, s.t.slot
      ensures Facing() && u == Utf8.Step(old(u), c).0 && lookups == old(lookups) + Utf8.Glyphs(Utf8.Step(old(u), c).1)
      ensures goesOn ==> F() == old(F()) && Utf8.Step(old(u), c).1 == [Utf8.Plain(c)]
      ensures !goesOn ==> Printing(Utf8.Step(old(u), c).1) && F() == Shows(tables, old(F()), Utf8.Step(old(u), c).1)
    {
      hide Screen.Valid, FaceOk, Printed, Remembered, Shown, Utf8.Glyphs;
      Utf8.GlyphsOf(u, c);
      u := u.(rem := u.rem - 1);
      u := u.(cp := Utf8.Or(u.cp, c - 0x80, u.rem));
      if u.cp > 0x10FFFF {
        return false;
      }
      if (u.rem == 1 && u.cp < 0x800) || (u.rem == 2 && u.cp < 0x1_0000) {
        PrintBad(true);
        u := u.(cp := Utf8.MAX);
        return false;
      }
      if u.rem != 0 {
        return false;
      }
      if !(0xD800 <= u.cp <= 0xDFFF) {
        PrintCode(u.cp);
        return false;
      }
      return true;
    }

    /** The lead byte of a UTF-8 sequence. */
    method LeadByte(c: nat)
      requires 0xC2 <= c <= 0xF4
      modifies this`u, this`gSelect
      ensures gSelect == 0 && u == Utf8.Fresh(old(u), c).0
    {
      gSelect := 0;
      if c <= 0xDF {
        u := Utf8.Utf((c - 0xC0) * 64, 1);
      } else if c <= 0xEF {
        u := Utf8.Utf((c - 0xE0) * 4096, 2);
      } else {
        u := Utf8.Utf((c - 0xF0) * 0x4_0000, 3);
      }
    }

    /** A byte inside a UTF-8 sequence. */
    method Continue(c: Octet)
      requires Valid() && u.rem != 0 && Utf8.Tail(c)
      modifies this, s`m, s.t, s.t.queue, s.t.slot
      ensures Valid() && State(F(), P()) == Decoded(tables, old(State(F(), P())), c)
      ensures lookups == old(lookups) + Utf8.Glyphs(Utf8.Step(old(u), c).1)
    {
      hide Screen.Valid, FaceOk, Single, Shows, NumbersOk, Utf8.Step, Utf8.Glyphs;
      ghost var st := State(F(), P());
      DecodedCases(tables, st, c);
      Utf8.StepRem(u, c);
      var goesOn := TailByte(c);
      if goesOn {
        PlainByte(c);
      }
    }

    /** A byte that starts afresh, after the replacement of a sequence that was cut off. */
    method Begin(c: Octet)
      requires Valid() && (u.rem == 0 || !Utf8.Tail(c))
      modifies this`mode, this`escI, this`rrr, this`oscI, this`u, this`gSelect, this`look, this`saved, this`savedX,
        this`savedY, this`insertMode, this`lastPrinted, this`lastWasGraphic, s`m, s.t, s.t.queue, s.t.slot
      ensures Valid() && State(F(), P()) == Decoded(tables, old(State(F(), P())), c)
    {
      hide Screen.Valid, FaceOk, Single, NumbersOk, Shown, Decoded, Utf8.Step, Utf8.Fresh;
      DecodedFresh(tables, State(F(), P()), c);
      if u.rem != 0 {
        var already := u.cp > 0x10FFFF;
        u := Utf8.Utf(0, 0);
        if !already {
          PrintBad(false);
        }
      }
      if 0xC2 <= c <= 0xF4 {
        LeadByte(c);
      } else {
        PlainByte(c);
      }
    }

    /** `flanterm_putchar` outside escape sequences: one step of the decoder. */
    method Text(c: Octet)
      requires Valid()
      modifies this, s`m, s.t, s.t.queue, s.t.slot
      ensures Valid() && State(F(), P()) == Decoded(tables, old(State(F(), P())), c)
      ensures lookups == old(lookups) + Utf8.Glyphs(Utf8.Step(old(u), c).1)
    {
      hide Screen.Valid, FaceOk, ParserOk, Decoded, Utf8.Glyphs;
      FreshGlyphs(u, c);
      if u.rem != 0 && Utf8.Tail(c) {
        Continue(c);
      } else {
        Begin(c);
      }
    }

    /** CAN and SUB, and the byte after `ESC [ [`. */
    method Cancel()
      requires Valid()
      modifies this`mode, this`u, this`gSelect, this`lastWasGraphic
      ensures Valid() && State(F(), P()) == Cancelled(old(State(F(), P())))
    {
      hide Screen.Valid, Fits, Rows, LookFits, NumbersOk;
      mode := mode.(discard := false, escape := false, control := false, osc := false, oscEscape := false);
      u, gSelect, lastWasGraphic := u.(rem := 0), 0, false;
    }

    /** `flanterm_putchar` */
    method Putchar(c: Octet)
      requires Valid()
      modifies this, s`m, s.t, s.t.queue, s.t.slot, esc, oscBuf
      ensures Valid() && State(F(), P()) == Fed(tables, old(State(F(), P())), c)
        && lookups == old(lookups) + LookedUp(old(P()), c)
    {
      hide Screen.Valid, FaceOk, ParserOk, Cancelled, Escaped, Decoded, Utf8.Glyphs, Utf8.Step;
      if mode.discard || c == 0x18 || c == 0x1A {
        Cancel();
      } else if mode.escape {
        EscapeParse(c);
      } else {
        Text(c);
      }
    }

    /** `flanterm_write`: whatever the bytes, the state is the one that they stand for, and
        the screen shows it. */
    method Write(buf: seq<Octet>)
      requires Valid()
      modifies this, s`m, s.t, s.t.grid, s.t.queue, s.t.slot, esc, oscBuf
      ensures Valid() && State(F(), P()) == FedAll(tables, old(State(F(), P())), buf)
      ensures lookups == old(lookups) + LookedUpAll(tables, old(State(F(), P())), buf)
      ensures Same(s.t.shown, Visible(s.m))
    {
      hide Screen.Valid, FaceOk, ParserOk, Fed, Same, Visible, LookedUp;
      assert buf[..0] == [];
      for i := 0 to |buf|
        invariant Valid() && State(F(), P()) == FedAll(tables, old(State(F(), P())), buf[..i])
        invariant lookups == old(lookups) + LookedUpAll(tables, old(State(F(), P())), buf[..i])
      {
        assert buf[..i + 1][..i] == buf[..i];
        Putchar(buf[i]);
      }
      assert buf[..|buf|] == buf;
      s.Flush();
    }
  }

  /** Events that only print: none, a glyph or a replacement. */
  predicate Printing(es: seq<Utf8.Event>) { es == [] || (|es| == 1 && !es[0].Plain?) }

  function Shows(T: Tables, f: Face, es: seq<Utf8.Event>): (r: Face)
    requires FaceOk(f) && Printing(es)
    ensures Keeps(f, r)
  {
    if es == [] then f
    else match es[0] case Glyph(cp) => Printed(T, f, cp) case Bad(kept) => if kept then Remembered(f, BOX, 1)
      else Shown(f, BOX, 1)
  }

  /** The state in which the events of a byte are handled. */
  function Stepped(st: State, c: nat): (r: State)
    requires StateOk(st)
    ensures StateOk(r)
  {
    Utf8.StepRem(st.p.u, c);
    State(st.f, st.p.(u := Utf8.Step(st.p.u, c).0, select := if 0xC2 <= c <= 0xF4 then 0 else st.p.select))
  }

  lemma {:induction false} FreshGlyphs(u: Utf8.Utf, c: nat)
    ensures u.rem == 0 || !Utf8.Tail(c) ==> Utf8.Glyphs(Utf8.Step(u, c).1) == []
  {
    hide Utf8.Glyphs;
    Utf8.GlyphsOf(u, c);
  }

  /** Bytes that start afresh. */
  lemma {:induction false} DecodedFresh(T: Tables, st: State, c: Octet)
    requires StateOk(st) && (st.p.u.rem == 0 || !Utf8.Tail(c))
    ensures var f := if st.p.u.rem == 0 || st.p.u.cp > 0x10FFFF then st.f else Shown(st.f, BOX, 1);
      var u := if st.p.u.rem == 0 then st.p.u else Utf8.Utf(0, 0);
      if 0xC2 <= c <= 0xF4 then Utf8.Fresh(u, c).0.rem <= 3
        && Decoded(T, st, c) == State(f, st.p.(u := Utf8.Fresh(u, c).0, select := 0))
      else Decoded(T, st, c) == Single(T, f, st.p.(u := u), c)
  {
    hide FaceOk, Single, Shown, NumbersOk, Decoded;
    DecodedCases(T, st, c);
  }

  lemma {:induction false} DecodedCases(T: Tables, st: State, c: Octet)
    requires StateOk(st)
    ensures var es, r := Utf8.Step(st.p.u, c).1, Stepped(st, c);
      && (Printing(es) ==> Decoded(T, st, c) == State(Shows(T, r.f, es), r.p))
      && (es == [Utf8.Plain(c)] ==> Decoded(T, st, c) == Single(T, r.f, r.p, c))
      && (es == [Utf8.Bad(false), Utf8.Plain(c)] ==> Decoded(T, st, c) == Single(T, Shown(r.f, BOX, 1), r.p, c))
  {
    hide FaceOk, Single, Shown, Remembered, Printed, NumbersOk;
    var es, r := Utf8.Step(st.p.u, c).1, Stepped(st, c);
    assert es[..0] == [];
    if |es| == 1 {
      assert HandledAll(T, r, es) == Handled(T, HandledAll(T, r, []), es[0]);
    } else if es == [Utf8.Bad(false), Utf8.Plain(c)] {
      assert es[..1] == [Utf8.Bad(false)];
      assert es[..1][..0] == [];
      assert HandledAll(T, r, es[..1]) == Handled(T, HandledAll(T, r, []), Utf8.Bad(false));
    }
  }

  lemma {:induction false} ControlNothing(f: Face, c: nat)
    requires FaceOk(f) && (c == 0 || c == 0x7F)
    ensures Control(f, c) == f
  {
  }

  lemma {:induction false} DecModesNone(f: Face, on: bool)
    requires FaceOk(f)
    ensures DecModes(f, [], on) == f
  {
  }

  lemma {:induction false} FilledLeast(k: Numbers, c: nat)
    requires NumbersOk(k)
    ensures !ZeroDefault(c) ==> Filled(k, c).values[0] >= 1 && Filled(k, c).values[1] >= 1
  {
  }

  /** Without scrolling and with wrapping. */
  function Hushed(m: Plain): (r: Plain)
    requires Proper(m)
    ensures Alike(m, r)
  {
    m.(scroll := false, wrap := true)
  }

  function Quiet(f: Face): (r: Face)
    requires FaceOk(f)
    ensures Keeps(f, r)
  {
    f.(m := Hushed(f.m))
  }

  ghost predicate ModesKept(m: Plain, r: Plain) { r.scroll == m.scroll && r.wrap == m.wrap }

  lemma {:induction false} HushedMove(m: Plain, origin: bool, c: nat, n: nat, k: nat)
    requires Proper(m) && IsMove(c)
    ensures Travelled(Hushed(m), origin, c, n, k) == Hushed(Travelled(m, origin, c, n, k))
      && ModesKept(m, Travelled(m, origin, c, n, k))
  {
    hide Fits, Rows, Destination;
  }

  lemma {:induction false} HushedEdit(m: Plain, c: nat, n: nat)
    requires Proper(m)
    ensures Edited(Hushed(m), c, n) == Hushed(Edited(m, c, n)) && ModesKept(m, Edited(m, c, n))
  {
    hide Fits, Rows, At, Deleted, Inserted, Erased, LineRegion, PageRegion;
  }

  lemma {:induction false} HushedLines(m: Plain, c: nat, n: nat)
    requires Proper(m)
    ensures Lined(Hushed(m), c, n) == Hushed(Lined(m, c, n)) && ModesKept(m, Lined(m, c, n))
  {
    hide Fits, Rows, Deleted, Inserted;
  }

  lemma {:induction false} QuietMargins(f: Face, vs: seq<Word>, n: nat)
    requires FaceOk(f) && |vs| == MAX_VALUES
    ensures Margined(Quiet(f), vs, n) == Quiet(Margined(f, vs, n)) && ModesKept(f.m, Margined(f, vs, n).m)
  {
    hide Fits, Rows, LookFits, Clamped;
  }

  lemma {:induction false} QuietSgr(T: Tables, f: Face, vs: seq<Word>)
    requires TablesOk(T) && FaceOk(f)
    ensures FlanSpec.Sgr(T, Quiet(f), vs) == Quiet(FlanSpec.Sgr(T, f, vs)) && ModesKept(f.m, FlanSpec.Sgr(T, f, vs).m)
  {
    hide Fits, Rows, LookFits, Painted, Unpainted;
  }

  /** No control sequence but the repetition depends on these modes or changes them. */
  lemma {:induction false} PerformedQuiet(T: Tables, f: Face, c: nat, vs: seq<Word>, n: nat)
    requires TablesOk(T) && FaceOk(f) && |vs| == MAX_VALUES && n <= MAX_VALUES
    ensures c == REP ==> Performed(T, f, c, vs, n) == if f.graphic
      then Repeated(f, if vs[0] > f.m.cols then f.m.cols else vs[0]) else f
    ensures c != REP ==>
      Performed(T, Quiet(f), c, vs, n) == Quiet(Performed(T, f, c, vs, n))
      && ModesKept(f.m, Performed(T, f, c, vs, n).m)
  {
    hide Fits, Rows, Repeated, LookFits, Travelled, Edited, Lined, Margined, FlanSpec.Sgr, Clamped;
    if IsMove(c) {
      HushedMove(f.m, f.look.origin, c, vs[0], vs[1]);
    } else if IsEdit(c) {
      HushedEdit(f.m, c, vs[0]);
    } else if IsLines(c) {
      HushedLines(f.m, c, vs[0]);
    } else if c == SGR {
      QuietSgr(T, f, vs[..n]);
    } else if c == DECSTBM {
      QuietMargins(f, vs, n);
    }
  }

  lemma {:induction false} PaintedNone(T: Tables, p: Paint)
    requires TablesOk(T) && LookFits(p.look)
    ensures Painted(T, p, []) == p
  {
  }

  lemma {:induction false} PaintedOne(T: Tables, p: Paint, vs: seq<Word>, i: nat)
    requires TablesOk(T) && LookFits(p.look) && i < |vs| && vs[i] != 38 && vs[i] != 48
    ensures Painted(T, p, vs[i..]) == Painted(T, Attributed(T, p, vs[i]), vs[i + 1..])
  {
    hide Attributed;
    assert vs[i..][1..] == vs[i + 1..];
  }

  /** The colour after 38 or 48. */
  lemma {:induction false} PaintedTwo(T: Tables, p: Paint, vs: seq<Word>, i: nat)
    requires TablesOk(T) && LookFits(p.look) && i < |vs| && (vs[i] == 38 || vs[i] == 48)
    ensures i + 1 >= |vs| ==> Painted(T, p, vs[i..]) == p
    ensures i + 1 < |vs| && vs[i + 1] == 2 ==>
      Painted(T, p, vs[i..]) == if i + 4 >= |vs| then p
        else Painted(T, Dyed(p, vs[i] == 38, T.convert(Rgb(vs[i + 2], vs[i + 3], vs[i + 4]))), vs[i + 5..])
    ensures i + 1 < |vs| && vs[i + 1] == 5 ==>
      Painted(T, p, vs[i..]) == if i + 2 >= |vs| then p
        else Painted(T, Indexed(T, p, vs[i] == 38, vs[i + 2]), vs[i + 3..])
    ensures i + 1 < |vs| && vs[i + 1] != 2 && vs[i + 1] != 5 ==> Painted(T, p, vs[i..]) == Painted(T, p, vs[i + 2..])
  {
    hide Indexed, Attributed;
    var w := vs[i..];
    if i + 1 < |vs| {
      assert w[1] == vs[i + 1];
      if w[1] == 2 && i + 4 < |vs| {
        assert w[2] == vs[i + 2] && w[3] == vs[i + 3] && w[4] == vs[i + 4] && w[5..] == vs[i + 5..];
      } else if w[1] == 5 && i + 2 < |vs| {
        assert w[2] == vs[i + 2] && w[3..] == vs[i + 3..];
      } else {
        assert w[2..] == vs[i + 2..];
      }
    }
  }
}
