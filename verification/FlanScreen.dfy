/** The screen as the escape parser sees it: the calls into the frame buffer terminal, each
    with its effect on a plain grid. */
module FlanScreen {
  import opened RowMajor
  import opened TermGrid
  import opened TermQueue
  import opened Term
  import opened TermTheorems
  import opened FlanEdit

  // ----- edits of a plain terminal -----

  /** The column that `get_cursor_pos` reports: the last one when a wrap is due. */
  function Column(m: Plain): (x: nat)
    requires Proper(m)
    ensures x < m.cols
  {
    if m.x < m.cols then m.x else m.cols - 1
  }

  /** Cells of row y lie inside the grid. */
  lemma {:induction false} RowInside(m: Plain, x: nat, y: nat, n: nat)
    requires Proper(m) && x + n <= m.cols && y < m.rows
    ensures At(x, y, m.cols) + n <= Rows(y + 1, m.cols) <= |m.g| && Rows(y, m.cols) + x == At(x, y, m.cols)
  {
    InLine(x, y, n, m.rows, m.cols);
  }

  /** `CSI K` */
  function LineErased(m: Plain, mode: nat, x: nat, y: nat): (r: Plain)
    requires Proper(m) && x < m.cols && y < m.rows
    ensures Alike(m, r)
  {
    RowInside(m, x, y, m.cols - x);
    RowInside(m, 0, y, m.cols);
    var w := LineRegion(mode, x, y, m.cols);
    if mode > 2 then m else m.(g := Erased(m.g, w.0, w.1, Blank(m)), x := x, y := y)
  }

  /** `CSI J` */
  function PageErased(m: Plain, mode: nat, x: nat, y: nat): (r: Plain)
    requires Proper(m) && x < m.cols && y < m.rows
    ensures Alike(m, r)
  {
    AtBounds(x, y, m.cols, m.rows);
    var w := PageRegion(mode, x, y, m.rows, m.cols);
    if mode > 3 then m
    else if mode > 1 then m.(g := Erased(m.g, w.0, w.1, Blank(m)))
    else m.(g := Erased(m.g, w.0, w.1, Blank(m)), x := x, y := y)
  }

  /** The part of a count that fits on the line from column x on. */
  function Room(m: Plain, n: nat, x: nat): (r: nat)
    requires x <= m.cols
    ensures x + r <= m.cols && r <= n
  {
    if n > m.cols - x then m.cols - x else n
  }

  /** `CSI @` */
  function CharsInserted(m: Plain, n: nat, x: nat, y: nat): (r: Plain)
    requires Proper(m) && x < m.cols && y < m.rows
    ensures Alike(m, r)
  {
    RowInside(m, x, y, Room(m, n, x));
    if n == 0 then m
    else m.(g := Inserted(m.g, At(x, y, m.cols), Rows(y + 1, m.cols), Room(m, n, x), Blank(m)), x := x, y := y)
  }

  /** `CSI P` */
  function CharsDeleted(m: Plain, n: nat, x: nat, y: nat): (r: Plain)
    requires Proper(m) && x < m.cols && y < m.rows
    ensures Alike(m, r)
  {
    RowInside(m, x, y, Room(m, n, x));
    m.(g := Deleted(m.g, At(x, y, m.cols), Rows(y + 1, m.cols), Room(m, n, x), Blank(m)), x := x, y := y)
  }

  /** `CSI X` */
  function CharsErased(m: Plain, n: nat, x: nat, y: nat): (r: Plain)
    requires Proper(m) && x < m.cols && y < m.rows
    ensures Alike(m, r)
  {
    RowInside(m, x, y, Room(m, n, x));
    m.(g := Erased(m.g, At(x, y, m.cols), Room(m, n, x), Blank(m)), x := x, y := y)
  }

  /** n lines deleted at line y, those below moving up to the bottom margin. */
  function LinesDeleted(m: Plain, y: nat, n: nat): (r: Plain)
    requires Proper(m) && y + n <= m.bottom
    ensures Alike(m, r)
  {
    RegionFits(n, y, m.bottom, m.rows, m.cols);
    m.(g := Deleted(m.g, Rows(y, m.cols), Rows(m.bottom, m.cols), Rows(n, m.cols), Blank(m)))
  }

  /** n blank lines inserted at line y. */
  function LinesInserted(m: Plain, y: nat, n: nat): (r: Plain)
    requires Proper(m) && y + n <= m.bottom
    ensures Alike(m, r)
  {
    RegionFits(n, y, m.bottom, m.rows, m.cols);
    m.(g := Inserted(m.g, Rows(y, m.cols), Rows(m.bottom, m.cols), Rows(n, m.cols), Blank(m)))
  }

  /** The cells up to hi moved right by n; the n cells at lo stay. */
  function Slid(g: Grid, lo: nat, hi: nat, n: nat): (r: Grid)
    requires lo + n <= hi <= |g|
    ensures |r| == |g|
  {
    g[..lo + n] + g[lo..hi - n] + g[hi..]
  }

  /** `insert_shift`: room for n cells at the cursor. */
  function Spread(m: Plain, n: nat): (r: Plain)
    requires Proper(m)
    ensures Alike(m, r)
  {
    RowInside(m, Column(m), m.y, Room(m, n, Column(m)));
    if n == 0 then m
    else m.(g := Slid(m.g, At(Column(m), m.y, m.cols), Rows(m.y + 1, m.cols), Room(m, n, Column(m))))
  }

  lemma {:induction false} SlidSame(v: Grid, w: Grid, g: Grid, lo: nat, hi: nat, n: nat)
    requires lo + n <= hi <= |v| && MovedDown(v, w, lo, hi - n, n) && Same(v, g)
    ensures Same(w, Slid(g, lo, hi, n))
  {
    var r := Slid(g, lo, hi, n);
    forall j {:trigger w[j]} {:trigger r[j]} | 0 <= j < |w| ensures Like(w[j], r[j]) {
      if lo + n <= j < hi {
        assert Like(w[j], v[j - n]) && Like(v[j - n], g[j - n]);
      } else {
        assert w[j] == v[j] && Like(v[j], g[j]);
      }
    }
  }

  // ----- the calls -----

  class Screen {
    const t: Terminal
    /** What the screen would be if every call drew at once. */
    ghost var m: Plain

    ghost predicate Valid()
      reads this, t, t.grid, t.queue, t.slot
    {
      Proper(m) && Agrees(t, m)
    }

    constructor (height: nat, width: nat, p: Pen)
      requires height > 0 && width > 0
      ensures Valid() && fresh(t) && fresh(t.grid) && fresh(t.queue) && fresh(t.slot)
      ensures m == Plain(height, width, seq(Rows(height, width), i => Drawn(SPACE, p)), 0, 0, p, 0, height, true,
        true, true)
    {
      var backend := new Terminal(height, width, p, true);
      t := backend;
      m := Plain(height, width, backend.Cells(), 0, 0, p, 0, height, true, true, true);
      new;
      hide Linked, Faithful, View, Rows;
      RowFacts(|m.g|, 0, height, height, width);
      SameAlready(m.g);
    }

    method Size() returns (rows: nat, cols: nat)
      requires Valid()
      ensures rows == m.rows && cols == m.cols
    {
      hide Terminal.Valid, Terminal.Core, Same, Fits, Rows;
      rows, cols := t.rows, t.cols;
    }

    method Margins() returns (top: nat, bottom: nat)
      requires Valid()
      ensures top == m.top && bottom == m.bottom
    {
      hide Terminal.Valid, Terminal.Core, Same, Fits, Rows;
      top, bottom := t.top, t.bottom;
    }

    method Modes() returns (scroll: bool, wrap: bool)
      requires Valid()
      ensures scroll == m.scroll && wrap == m.wrap
    {
      hide Terminal.Valid, Terminal.Core, Same, Fits, Rows;
      scroll, wrap := t.scrollEnabled, t.wrapEnabled;
    }

    method SaveState() returns (p: Pen, x: nat, y: nat)
      requires Valid()
      ensures p == m.pen && x == m.x && y == m.y
    {
      hide Terminal.Valid, Terminal.Core, Same, Fits, Rows;
      p, x, y := t.pen, t.cursorX, t.cursorY;
    }

    method GetPen() returns (p: Pen)
      requires Valid()
      ensures p == m.pen
    {
      hide Terminal.Valid, Terminal.Core, Same, Fits, Rows;
      p := t.pen;
    }

    method SetPen(p: Pen)
      requires Valid()
      modifies this`m, t`pen
      ensures Valid() && m == old(m).(pen := p)
    {
      hide Terminal.Valid, Terminal.Core, Same, Fits, Rows;
      t.SetPen(p);
      m := m.(pen := p);
    }

    method RestoreState(p: Pen, x: nat, y: nat)
      requires Valid() && x <= m.cols && y < m.rows
      modifies this`m, t`pen, t`cursorX, t`cursorY
      ensures Valid() && m == old(m).(pen := p, x := x, y := y)
    {
      hide Terminal.Valid, Terminal.Core, Same, Fits, Rows;
      t.RestoreState(p, x, y);
      m := m.(pen := p, x := x, y := y);
    }

    method SetModes(scroll: bool, wrap: bool)
      requires Valid()
      modifies this`m, t`scrollEnabled, t`wrapEnabled
      ensures Valid() && m == old(m).(scroll := scroll, wrap := wrap)
    {
      hide Terminal.Valid, Terminal.Core, Same, Fits, Rows;
      t.SetModes(scroll, wrap);
      m := m.(scroll := scroll, wrap := wrap);
    }

    method SetCursorMode(on: bool)
      requires Valid()
      modifies this`m, t`cursorEnabled
      ensures Valid() && m == old(m).(cursor := on)
    {
      hide Terminal.Valid, Terminal.Core, Same, Fits, Rows;
      t.SetCursorMode(on);
      m := m.(cursor := on);
    }

    method SetMargins(top: nat, bottom: nat)
      requires Valid() && top < bottom <= m.rows
      modifies this`m, t`top, t`bottom
      ensures Valid() && m == Bounded(old(m), top, bottom)
    {
      hide Terminal.Valid, Terminal.Core, Same, Fits, Rows;
      t.SetMargins(top, bottom);
      m := Bounded(m, top, bottom);
    }

    method SetCursorPos(x: nat, y: nat)
      requires Valid()
      modifies this`m, t`cursorX, t`cursorY
      ensures Valid() && m == Put(old(m), x, y)
    {
      hide Terminal.Valid, Terminal.Core, Same, Fits, Rows;
      t.SetCursorPos(x, y);
      m := Put(m, x, y);
    }

    method GetCursorPos() returns (x: nat, y: nat)
      requires Valid()
      ensures x == Column(m) && y == m.y
    {
      hide Terminal.Valid, Terminal.Core, Same, Fits, Rows;
      x, y := t.GetCursorPos();
    }

    method Clear(move: bool)
      requires Valid()
      modifies this`m, t, t.queue, t.slot
      ensures Valid() && m == Wiped(old(m), move)
    {
      hide Agrees, Rows, Fits, Cleared;
      StepClear(t, move, m);
      m := Wiped(m, move);
    }

    method RawPutchar(c: nat)
      requires Valid()
      modifies this`m, t, t.queue, t.slot
      ensures Valid() && m == Typed(old(m), c)
    {
      hide Agrees, Typed, Proper;
      StepPut(t, c, m);
      m := Typed(m, c);
      TypedAlike(old(m), c);
    }

    method Scroll(up: bool)
      requires Valid()
      modifies this`m, t, t.queue, t.slot
      ensures Valid() && m == Rolled(old(m), up)
    {
      hide Agrees, Rolled, Proper;
      StepScroll(t, if up then CScroll else CRevScroll, m);
      m := Rolled(m, up);
      RolledAlike(old(m), up);
    }

    /** The end of a write: afterwards the screen shows the plain grid with its cursor. */
    method Flush()
      requires Valid()
      modifies t, t.grid, t.slot
      ensures Valid() && Same(t.shown, Visible(m))
    {
      hide Agrees, Same, Visible;
      StepFlush(t, m);
    }

    method EraseLine(mode: nat, x: nat, y: nat)
      requires Valid() && x < m.cols && y < m.rows
      modifies this`m, t, t.queue, t.slot
      ensures Valid() && m == LineErased(old(m), mode, x, y)
    {
      hide Linked, Faithful, View, Same, Like, Fits, Rows, At, Erased;
      ghost var v := t.Cells();
      FlanEdit.EraseLine(t, mode, x, y);
      if mode <= 2 {
        ghost var w := LineRegion(mode, x, y, m.cols);
        ErasedOver(v, t.Cells(), m.g, w.0, w.1, Blank(m));
      }
      m := LineErased(m, mode, x, y);
    }

    method EraseDisplay(mode: nat, x: nat, y: nat)
      requires Valid() && x < m.cols && y < m.rows
      modifies this`m, t, t.queue, t.slot
      ensures Valid() && m == PageErased(old(m), mode, x, y)
    {
      hide Linked, Faithful, View, Same, Like, Fits, Rows, At, Erased;
      ghost var v := t.Cells();
      FlanEdit.EraseDisplay(t, mode, x, y);
      if mode <= 3 {
        ghost var w := PageRegion(mode, x, y, m.rows, m.cols);
        ErasedOver(v, t.Cells(), m.g, w.0, w.1, Blank(m));
      }
      m := PageErased(m, mode, x, y);
    }

    method InsertChars(n: nat, x: nat, y: nat)
      requires Valid() && x < m.cols && y < m.rows
      modifies this`m, t, t.queue, t.slot
      ensures Valid() && m == CharsInserted(old(m), n, x, y)
    {
      hide Linked, Faithful, View, Same, Like, Fits, Rows, At, Inserted;
      ghost var v := t.Cells();
      FlanEdit.InsertChars(t, n, x, y);
      if n > 0 {
        InsertedOver(v, t.Cells(), m.g, At(x, y, m.cols), Rows(y + 1, m.cols), Room(m, n, x), Blank(m));
      }
      m := CharsInserted(m, n, x, y);
    }

    method DeleteChars(n: nat, x: nat, y: nat)
      requires Valid() && x < m.cols && y < m.rows && n > 0
      modifies this`m, t, t.queue, t.slot
      ensures Valid() && m == CharsDeleted(old(m), n, x, y)
    {
      hide Linked, Faithful, View, Same, Like, Fits, Rows, At, Deleted;
      ghost var v := t.Cells();
      FlanEdit.DeleteChars(t, n, x, y);
      DeletedOver(v, t.Cells(), m.g, At(x, y, m.cols), Rows(y + 1, m.cols), Room(m, n, x), Blank(m));
      m := CharsDeleted(m, n, x, y);
    }

    /** From the cursor, which is at (x, y) unless a wrap is due. */
    method EraseChars(n: nat, x: nat, y: nat)
      requires Valid() && x == Column(m) && y == m.y
      modifies this`m, t, t.queue, t.slot
      ensures Valid() && m == CharsErased(old(m), n, x, y)
    {
      hide Linked, Faithful, View, Same, Like, Fits, Rows, At, Erased;
      ghost var v := t.Cells();
      t.SetCursorPos(x, y);
      FlanEdit.EraseChars(t, n, x, y);
      ErasedOver(v, t.Cells(), m.g, At(x, y, m.cols), Room(m, n, x), Blank(m));
      m := CharsErased(m, n, x, y);
    }

    method ScrollTimes(n: nat, up: bool)
      requires Valid() && n <= m.bottom - m.top
      modifies this`m, t, t.queue, t.slot
      ensures Valid() && m == if up then LinesDeleted(old(m), old(m.top), n) else LinesInserted(old(m), old(m.top), n)
    {
      hide Linked, Faithful, View, Same, Like, Fits, Rows, At, Inserted, Deleted;
      ghost var v := t.Cells();
      if up {
        FlanEdit.ScrollTimes(t, n);
        DeletedOver(v, t.Cells(), m.g, Rows(m.top, m.cols), Rows(m.bottom, m.cols), Rows(n, m.cols), Blank(m));
        m := LinesDeleted(m, m.top, n);
      } else {
        FlanEdit.RevScrollTimes(t, n);
        InsertedOver(v, t.Cells(), m.g, Rows(m.top, m.cols), Rows(m.bottom, m.cols), Rows(n, m.cols), Blank(m));
        m := LinesInserted(m, m.top, n);
      }
    }

    method ShiftRight(n: nat)
      requires Valid() && n > 0
      modifies this`m, t, t.queue, t.slot
      ensures Valid() && m == Spread(old(m), n)
    {
      hide Linked, Faithful, View, Same, Like, Fits, Rows, At, MovedDown, Slid;
      ghost var v := t.Cells();
      var x, y := GetCursorPos();
      var count := if n > t.cols - x then t.cols - x else n;
      FlanEdit.ShiftRight(t, count, x, y);
      SlidSame(v, t.Cells(), m.g, At(x, y, m.cols), Rows(y + 1, m.cols), count);
      m := Spread(m, n);
    }
  }

  lemma {:induction false} TypedAlike(m: Plain, c: nat)
    requires Proper(m)
    ensures Proper(Typed(m, c)) && Act(m, CPut(c)) == Typed(m, c)
  {
    hide Typed, Proper;
  }

  lemma {:induction false} RolledAlike(m: Plain, up: bool)
    requires Proper(m)
    ensures Proper(Rolled(m, up)) && Act(m, if up then CScroll else CRevScroll) == Rolled(m, up)
  {
    hide Rolled, Proper;
  }

  lemma {:induction false} ErasedOver(v: Grid, w: Grid, g: Grid, lo: nat, n: nat, blank: Cell)
    requires lo + n <= |v| && Same(v, g) && Same(w, Erased(v, lo, n, blank))
    ensures lo + n <= |g| && Same(w, Erased(g, lo, n, blank))
  {
    ErasedSame(v, g, lo, n, blank);
    SameTrans(w, Erased(v, lo, n, blank), Erased(g, lo, n, blank));
  }

  lemma {:induction false} InsertedOver(v: Grid, w: Grid, g: Grid, lo: nat, hi: nat, n: nat, blank: Cell)
    requires lo + n <= hi <= |v| && Same(v, g) && Same(w, Inserted(v, lo, hi, n, blank))
    ensures hi <= |g| && Same(w, Inserted(g, lo, hi, n, blank))
  {
    InsertedSame(v, g, lo, hi, n, blank);
    SameTrans(w, Inserted(v, lo, hi, n, blank), Inserted(g, lo, hi, n, blank));
  }

  lemma {:induction false} DeletedOver(v: Grid, w: Grid, g: Grid, lo: nat, hi: nat, n: nat, blank: Cell)
    requires lo + n <= hi <= |v| && Same(v, g) && Same(w, Deleted(v, lo, hi, n, blank))
    ensures hi <= |g| && Same(w, Deleted(g, lo, hi, n, blank))
  {
    DeletedSame(v, g, lo, hi, n, blank);
    SameTrans(w, Deleted(v, lo, hi, n, blank), Deleted(g, lo, hi, n, blank));
  }
}
