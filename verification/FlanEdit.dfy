/** The editing functions of the terminal: erasing, inserting and deleting cells and lines,
    as list operations on the grid. */
module FlanEdit {
  import opened RowMajor
  import opened TermGrid
  import opened TermQueue
  import opened Term

  // ----- list operations on cells -----

  function Blanks(n: nat, blank: Cell): (r: Grid)
    ensures |r| == n
  {
    seq(n, i => blank)
  }

  /** The n cells from lo on blank. */
  function Erased(g: Grid, lo: nat, n: nat, blank: Cell): (r: Grid)
    requires lo + n <= |g|
    ensures |r| == |g|
  {
    g[..lo] + Blanks(n, blank) + g[lo + n..]
  }

  /** n blanks inserted at lo; the cells up to hi move right and n of them fall off. */
  function Inserted(g: Grid, lo: nat, hi: nat, n: nat, blank: Cell): (r: Grid)
    requires lo + n <= hi <= |g|
    ensures |r| == |g|
  {
    g[..lo] + Blanks(n, blank) + g[lo..hi - n] + g[hi..]
  }

  /** n cells deleted at lo; the cells up to hi move left and n blanks come in. */
  function Deleted(g: Grid, lo: nat, hi: nat, n: nat, blank: Cell): (r: Grid)
    requires lo + n <= hi <= |g|
    ensures |r| == |g|
  {
    g[..lo] + g[lo + n..hi] + Blanks(n, blank) + g[hi..]
  }

  /** One more erased cell. */
  lemma {:induction false} ErasedNext(g: Grid, lo: nat, n: nat, blank: Cell)
    requires lo + n < |g|
    ensures Erased(g, lo, n + 1, blank) == Erased(g, lo, n, blank)[lo + n := blank]
  {
  }

  lemma {:induction false} ErasedMore(g: Grid, lo: nat, n: nat, m: nat, blank: Cell)
    requires lo + n + m <= |g|
    ensures Erased(Erased(g, lo, n, blank), lo + n, m, blank) == Erased(g, lo, n + m, blank)
  {
  }

  lemma {:induction false} ErasedSame(v: Grid, w: Grid, lo: nat, n: nat, blank: Cell)
    requires Same(v, w) && lo + n <= |v|
    ensures Same(Erased(v, lo, n, blank), Erased(w, lo, n, blank))
  {
    forall j {:trigger Erased(v, lo, n, blank)[j]} {:trigger Erased(w, lo, n, blank)[j]} | 0 <= j < |v|
      ensures Like(Erased(v, lo, n, blank)[j], Erased(w, lo, n, blank)[j])
    {
      assert Like(v[j], w[j]);
    }
  }

  lemma {:induction false} DeletedSame(v: Grid, w: Grid, lo: nat, hi: nat, n: nat, blank: Cell)
    requires Same(v, w) && lo + n <= hi <= |v|
    ensures Same(Deleted(v, lo, hi, n, blank), Deleted(w, lo, hi, n, blank))
  {
    var a, b := Deleted(v, lo, hi, n, blank), Deleted(w, lo, hi, n, blank);
    forall j {:trigger a[j]} {:trigger b[j]} | 0 <= j < |v| ensures Like(a[j], b[j]) {
      DeletedAt(v, lo, hi, n, blank, j);
      DeletedAt(w, lo, hi, n, blank, j);
      assert Like(v[j], w[j]);
      if lo <= j < hi - n {
        assert Like(v[j + n], w[j + n]);
      }
    }
  }

  lemma {:induction false} InsertedSame(v: Grid, w: Grid, lo: nat, hi: nat, n: nat, blank: Cell)
    requires Same(v, w) && lo + n <= hi <= |v|
    ensures Same(Inserted(v, lo, hi, n, blank), Inserted(w, lo, hi, n, blank))
  {
    var a, b := Inserted(v, lo, hi, n, blank), Inserted(w, lo, hi, n, blank);
    forall j {:trigger a[j]} {:trigger b[j]} | 0 <= j < |v| ensures Like(a[j], b[j]) {
      InsertedAt(v, lo, hi, n, blank, j);
      InsertedAt(w, lo, hi, n, blank, j);
      assert Like(v[j], w[j]);
      if lo + n <= j < hi {
        assert Like(v[j - n], w[j - n]);
      }
    }
  }

  lemma {:induction false} DeletedAt(g: Grid, lo: nat, hi: nat, n: nat, blank: Cell, j: nat)
    requires lo + n <= hi <= |g| && j < |g|
    ensures Deleted(g, lo, hi, n, blank)[j] == if lo <= j < hi - n then g[j + n] else if hi - n <= j < hi then blank
      else g[j]
  {
  }

  lemma {:induction false} InsertedAt(g: Grid, lo: nat, hi: nat, n: nat, blank: Cell, j: nat)
    requires lo + n <= hi <= |g| && j < |g|
    ensures Inserted(g, lo, hi, n, blank)[j] == if lo <= j < lo + n then blank else if lo + n <= j < hi then g[j - n]
      else g[j]
  {
  }

  /** Deleting twice is deleting the sum. */
  lemma {:induction false} DeletedTwice(g: Grid, lo: nat, hi: nat, m: nat, n: nat, blank: Cell)
    requires lo + m + n <= hi <= |g|
    ensures Deleted(Deleted(g, lo, hi, m, blank), lo, hi, n, blank) == Deleted(g, lo, hi, m + n, blank)
  {
    var a, b := Deleted(Deleted(g, lo, hi, m, blank), lo, hi, n, blank), Deleted(g, lo, hi, m + n, blank);
    forall j: nat {:trigger a[j]} | j < |g| ensures a[j] == b[j] {
      var d := Deleted(g, lo, hi, m, blank);
      DeletedAt(d, lo, hi, n, blank, j);
      DeletedAt(g, lo, hi, m, blank, j);
      DeletedAt(g, lo, hi, m + n, blank, j);
      if lo <= j < hi - n {
        DeletedAt(g, lo, hi, m, blank, j + n);
      }
    }
  }

  lemma {:induction false} InsertedTwice(g: Grid, lo: nat, hi: nat, m: nat, n: nat, blank: Cell)
    requires lo + m + n <= hi <= |g|
    ensures Inserted(Inserted(g, lo, hi, m, blank), lo, hi, n, blank) == Inserted(g, lo, hi, m + n, blank)
  {
    var a, b := Inserted(Inserted(g, lo, hi, m, blank), lo, hi, n, blank), Inserted(g, lo, hi, m + n, blank);
    forall j: nat {:trigger a[j]} | j < |g| ensures a[j] == b[j] {
      var d := Inserted(g, lo, hi, m, blank);
      InsertedAt(d, lo, hi, n, blank, j);
      InsertedAt(g, lo, hi, m, blank, j);
      InsertedAt(g, lo, hi, m + n, blank, j);
      if lo + n <= j < hi {
        InsertedAt(g, lo, hi, m, blank, j - n);
      }
    }
  }

  /** Scrolling a region up by a line deletes its first line. */
  lemma {:induction false} ScrollIsDelete(g: Grid, top: nat, bottom: nat, rows: nat, cols: nat, blank: Cell)
    requires Fits(|g|, top, bottom, rows, cols)
    ensures Rows(bottom, cols) == Rows(bottom - 1, cols) + cols && Rows(top, cols) + cols <= Rows(bottom, cols) <= |g|
    ensures ScrolledUp(g, top, bottom, cols, blank) == Deleted(g, Rows(top, cols), Rows(bottom, cols), cols, blank)
    ensures ScrolledDown(g, top, bottom, cols, blank) == Inserted(g, Rows(top, cols), Rows(bottom, cols), cols, blank)
  {
    RowsNext(bottom - 1, cols);
    var lo, hi := Rows(top, cols), Rows(bottom, cols);
    hide Rows, Deleted, Inserted;
    var u, d := ScrolledUp(g, top, bottom, cols, blank), ScrolledDown(g, top, bottom, cols, blank);
    forall j: nat {:trigger u[j]} | j < |g| ensures u[j] == Deleted(g, lo, hi, cols, blank)[j] {
      DeletedAt(g, lo, hi, cols, blank, j);
    }
    forall j: nat {:trigger d[j]} | j < |g| ensures d[j] == Inserted(g, lo, hi, cols, blank)[j] {
      InsertedAt(g, lo, hi, cols, blank, j);
    }
  }

  // ----- erasing -----

  /** Printing n blanks inside a line. */
  method PutBlanks(t: Terminal, n: nat)
    requires t.Valid() && t.cursorX + n <= t.cols
    modifies t.queue, t.slot, t`queueI, t`cursorX, t`cursorY
    ensures t.Valid() && t.grid[..] == old(t.grid[..]) && t.cursorX == old(t.cursorX) + n && t.cursorY == old(t.cursorY)
    ensures At(old(t.cursorX), t.cursorY, t.cols) + n <= |old(t.Cells())|
    ensures Same(t.Cells(), Erased(old(t.Cells()), At(old(t.cursorX), t.cursorY, t.cols), n, Drawn(SPACE, t.pen)))
  {
    hide Linked, View, At, Rows, Same, Faithful, Erased, ScrolledUp, Like;
    ghost var v0, x0 := t.Cells(), t.cursorX;
    ghost var lo := At(x0, t.cursorY, t.cols);
    InLine(t.cursorX, t.cursorY, n, t.rows, t.cols);
    ErasedNone(v0, lo, Drawn(SPACE, t.pen));
    for i := 0 to n
      invariant t.Valid() && t.grid[..] == old(t.grid[..]) && t.cursorX == x0 + i && t.cursorY == old(t.cursorY)
      invariant lo + n <= |v0| && Same(t.Cells(), Erased(v0, lo, i, Drawn(SPACE, t.pen)))
    {
      ghost var v := t.Cells();
      t.RawPutchar(SPACE);
      AtNext(x0, t.cursorY, i, t.cols);
      OneBlank(v0, v, t.Cells(), lo, i, Drawn(SPACE, t.pen));
    }
  }

  lemma {:induction false} InLine(x: nat, y: nat, n: nat, rows: nat, cols: nat)
    requires x + n <= cols && y < rows
    ensures At(x, y, cols) + n <= Rows(y + 1, cols) <= Rows(rows, cols)
  {
    RowsNext(y, cols);
    RowsMonotone(y + 1, rows, cols);
  }

  lemma {:induction false} AtNext(x: nat, y: nat, i: nat, cols: nat)
    ensures At(x + i, y, cols) == At(x, y, cols) + i
  {
  }

  lemma {:induction false} ErasedNone(v: Grid, lo: nat, blank: Cell)
    requires lo <= |v|
    ensures Same(v, Erased(v, lo, 0, blank))
  {
    assert Erased(v, lo, 0, blank) == v;
  }

  lemma {:induction false} OneBlank(v0: Grid, v: Grid, w: Grid, lo: nat, i: nat, blank: Cell)
    requires lo + i < |v0| && Same(v, Erased(v0, lo, i, blank)) && Same(w, v[lo + i := blank])
    ensures Same(w, Erased(v0, lo, i + 1, blank))
  {
    ErasedNext(v0, lo, i, blank);
    PutSame(v, Erased(v0, lo, i, blank), lo + i, blank, blank);
    hide Erased;
    SameTrans(w, v[lo + i := blank], Erased(v0, lo, i + 1, blank));
  }

  /** Blanks from a given position on, within its line. */
  method BlankAt(t: Terminal, x: nat, y: nat, n: nat)
    requires t.Valid() && x + n <= t.cols && x < t.cols && y < t.rows
    modifies t.queue, t.slot, t`queueI, t`cursorX, t`cursorY
    ensures t.Valid() && t.grid[..] == old(t.grid[..]) && At(x, y, t.cols) + n <= |old(t.Cells())|
    ensures Same(t.Cells(), Erased(old(t.Cells()), At(x, y, t.cols), n, Drawn(SPACE, t.pen)))
  {
    hide Linked, View, At, Rows, Same, Faithful, Erased;
    t.SetCursorPos(x, y);
    PutBlanks(t, n);
  }

  /** The cells that erase in line (section 8.3.41 of ECMA-48) is about: from the cursor,
      up to the cursor, or all. */
  function LineRegion(mode: nat, x: nat, y: nat, cols: nat): (nat, nat)
    requires x < cols
  {
    if mode == 0 then (At(x, y, cols), cols - x)
    else if mode == 1 then (Rows(y, cols), x + 1)
    else (Rows(y, cols), cols)
  }

  /** The cells that erase in page (section 8.3.39 of ECMA-48) is about. */
  function PageRegion(mode: nat, x: nat, y: nat, rows: nat, cols: nat): (nat, nat)
    requires x < cols && y < rows
  {
    AtBounds(x, y, cols, rows);
    if mode == 0 then (At(x, y, cols), Rows(rows, cols) - At(x, y, cols))
    else if mode == 1 then (0, At(x, y, cols) + 1)
    else (0, Rows(rows, cols))
  }

  /** `CSI K`: exactly the region is blank and the cursor is where it was. */
  method EraseLine(t: Terminal, mode: nat, x: nat, y: nat)
    requires t.Valid() && x < t.cols && y < t.rows
    modifies t.queue, t.slot, t`queueI, t`cursorX, t`cursorY
    ensures t.Valid() && t.grid[..] == old(t.grid[..])
    ensures mode > 2 ==> t.Cells() == old(t.Cells()) && t.cursorX == old(t.cursorX) && t.cursorY == old(t.cursorY)
    ensures mode <= 2 ==> t.cursorX == x && t.cursorY == y
    ensures var r := LineRegion(mode, x, y, t.cols);
      mode <= 2 ==>
        r.0 + r.1 <= |old(t.Cells())|
        && Same(t.Cells(), Erased(old(t.Cells()), r.0, r.1, Drawn(SPACE, t.pen)))
  {
    hide Linked, View, At, Rows, Same, Faithful, Erased;
    LineStart(y, t.cols);
    if mode == 0 {
      BlankAt(t, x, y, t.cols - x);
      t.SetCursorPos(x, y);
    } else if mode == 1 {
      BlankAt(t, 0, y, x + 1);
      t.SetCursorPos(x, y);
    } else if mode == 2 {
      BlankAt(t, 0, y, t.cols);
      t.SetCursorPos(x, y);
    }
  }

  lemma {:induction false} LineStart(y: nat, cols: nat)
    ensures At(0, y, cols) == Rows(y, cols) && Rows(y + 1, cols) == Rows(y, cols) + cols && Rows(0, cols) == 0
  {
  }

  /** Whole lines from y0 up to y1, after the cells before them were erased. */
  method BlankLines(t: Terminal, y0: nat, y1: nat, ghost v0: Grid, ghost lo: nat)
    requires t.Valid() && y0 <= y1 <= t.rows && lo <= Rows(y0, t.cols) <= |v0| && |v0| == Rows(t.rows, t.cols)
    requires Same(t.Cells(), Erased(v0, lo, Rows(y0, t.cols) - lo, Drawn(SPACE, t.pen)))
    modifies t.queue, t.slot, t`queueI, t`cursorX, t`cursorY
    ensures t.Valid() && t.grid[..] == old(t.grid[..]) && lo <= Rows(y1, t.cols) <= |v0|
    ensures Same(t.Cells(), Erased(v0, lo, Rows(y1, t.cols) - lo, Drawn(SPACE, t.pen)))
  {
    hide Linked, View, At, Rows, Same, Faithful, Erased;
    for y := y0 to y1
      invariant t.Valid() && t.grid[..] == old(t.grid[..]) && lo <= Rows(y, t.cols) <= |v0|
      invariant Same(t.Cells(), Erased(v0, lo, Rows(y, t.cols) - lo, Drawn(SPACE, t.pen)))
    {
      ghost var v := t.Cells();
      LineStart(y, t.cols);
      InLine(0, y, t.cols, t.rows, t.cols);
      BlankAt(t, 0, y, t.cols);
      ErasedOn(v0, v, t.Cells(), lo, Rows(y, t.cols) - lo, t.cols, Drawn(SPACE, t.pen));
    }
  }

  lemma {:induction false} ErasedOn(v0: Grid, v: Grid, w: Grid, lo: nat, n: nat, m: nat, blank: Cell)
    requires lo + n + m <= |v0| && Same(v, Erased(v0, lo, n, blank)) && |v| == |v0|
      && Same(w, Erased(v, lo + n, m, blank))
    ensures Same(w, Erased(v0, lo, n + m, blank))
  {
    ErasedSame(v, Erased(v0, lo, n, blank), lo + n, m, blank);
    ErasedMore(v0, lo, n, m, blank);
    hide Erased;
    SameTrans(w, Erased(v, lo + n, m, blank), Erased(v0, lo, n + m, blank));
  }

  /** `CSI J`: exactly the region is blank and the cursor is where it was. */
  method EraseDisplay(t: Terminal, mode: nat, x: nat, y: nat)
    requires t.Valid() && x < t.cols && y < t.rows
    modifies t.queue, t.slot, t`queueI, t`cursorX, t`cursorY
    ensures t.Valid() && t.grid[..] == old(t.grid[..])
    ensures mode > 3 ==> t.Cells() == old(t.Cells())
    ensures mode >= 2 ==> t.cursorX == old(t.cursorX) && t.cursorY == old(t.cursorY)
    ensures mode <= 1 ==> t.cursorX == x && t.cursorY == y
    ensures var r := PageRegion(mode, x, y, t.rows, t.cols);
      mode <= 3 ==>
        r.0 + r.1 <= |old(t.Cells())|
        && Same(t.Cells(), Erased(old(t.Cells()), r.0, r.1, Drawn(SPACE, t.pen)))
  {
    hide Linked, View, At, Rows, Same, Faithful, Erased, Cleared;
    ghost var v0, lo := t.Cells(), At(x, y, t.cols);
    AtBounds(x, y, t.cols, t.rows);
    LineStart(y, t.cols);
    LineStart(0, t.cols);
    if mode == 0 {
      PlaceInLine(x, y, t.cols);
      BlankAt(t, x, y, t.cols - x);
      BlankLines(t, y + 1, t.rows, v0, lo);
      t.SetCursorPos(x, y);
    } else if mode == 1 {
      PlaceInLine(x, y, t.cols);
      ErasedNone(v0, 0, Drawn(SPACE, t.pen));
      BlankLines(t, 0, y, v0, 0);
      ghost var v := t.Cells();
      BlankAt(t, 0, y, x + 1);
      ErasedOn(v0, v, t.Cells(), 0, Rows(y, t.cols), x + 1, Drawn(SPACE, t.pen));
      t.SetCursorPos(x, y);
    } else if mode == 2 || mode == 3 {
      t.Clear(false);
      ClearIsErase(v0, Drawn(SPACE, t.pen));
    }
  }

  lemma {:induction false} PlaceInLine(x: nat, y: nat, cols: nat)
    ensures At(x, y, cols) == Rows(y, cols) + x
  {
  }

  lemma {:induction false} ClearIsErase(v: Grid, blank: Cell)
    ensures Cleared(v, blank) == Erased(v, 0, |v|, blank)
  {
  }

  // ----- inserting and deleting -----

  /** `CSI @`: n blanks come in at the cursor and the rest of the line moves right. */
  method InsertChars(t: Terminal, count: nat, x: nat, y: nat)
    requires t.Valid() && x < t.cols && y < t.rows
    modifies t.queue, t.slot, t`queueI, t`cursorX, t`cursorY
    ensures t.Valid() && t.grid[..] == old(t.grid[..])
    ensures count == 0 ==> t.Cells() == old(t.Cells()) && t.cursorX == old(t.cursorX) && t.cursorY == old(t.cursorY)
    ensures count > 0 ==> t.cursorX == x && t.cursorY == y
    ensures var n := if count > t.cols - x then t.cols - x else count;
      count > 0 ==> (At(x, y, t.cols) + n <= Rows(y + 1, t.cols) <= |old(t.Cells())| &&
        Same(t.Cells(), Inserted(old(t.Cells()), At(x, y, t.cols), Rows(y + 1, t.cols), n, Drawn(SPACE, t.pen))))
  {
    hide Linked, View, At, Rows, Same, Faithful, Inserted, Erased, MovedDown;
    if count == 0 {
      return;
    }
    var n := if count > t.cols - x then t.cols - x else count;
    ghost var v0 := t.Cells();
    InLine(x, y, n, t.rows, t.cols);
    ShiftRight(t, n, x, y);
    ghost var v1 := t.Cells();
    BlankAt(t, x, y, n);
    InsertDone(v0, v1, t.Cells(), At(x, y, t.cols), Rows(y + 1, t.cols), n, Drawn(SPACE, t.pen));
    t.SetCursorPos(x, y);
  }

  /** The loop that moves the rest of a line right, also that of `insert_shift`. */
  method ShiftRight(t: Terminal, n: nat, x: nat, y: nat)
    requires t.Valid() && 0 < n && x + n <= t.cols && y < t.rows
    modifies t.queue, t.slot, t`queueI
    ensures t.Valid() && t.grid[..] == old(t.grid[..])
      && At(x, y, t.cols) + n <= Rows(y + 1, t.cols) <= |old(t.Cells())|
    ensures MovedDown(old(t.Cells()), t.Cells(), At(x, y, t.cols), Rows(y + 1, t.cols) - n, n)
  {
    hide Linked, View, At, Rows, Faithful, MovedDown, Pushed;
    ghost var v0, lo, hi := t.Cells(), At(x, y, t.cols), Rows(y + 1, t.cols);
    InLine(x, y, n, t.rows, t.cols);
    LineStart(y, t.cols);
    MovedDownNone(v0, hi - n, n);
    var i := t.cols - 1;
    while i >= x + n
      invariant t.Valid() && t.grid[..] == old(t.grid[..]) && x + n - 1 <= i < t.cols
      invariant MovedDown(v0, t.Cells(), Rows(y, t.cols) + i + 1 - n, hi - n, n)
    {
      ghost var v := t.Cells();
      PlaceInLine(i - n, y, t.cols);
      PlaceInLine(i, y, t.cols);
      t.MoveCharacter(i, y, i - n, y);
      MovedDownNext(v0, v, t.Cells(), At(i - n, y, t.cols), hi - n, n);
      i := i - 1;
    }
    PlaceInLine(x, y, t.cols);
  }

  lemma {:induction false} InsertDone(v0: Grid, v1: Grid, w: Grid, lo: nat, hi: nat, n: nat, blank: Cell)
    requires lo + n <= hi <= |v0| && MovedDown(v0, v1, lo, hi - n, n) && Same(w, Erased(v1, lo, n, blank))
    ensures Same(w, Inserted(v0, lo, hi, n, blank))
  {
    var r := Inserted(v0, lo, hi, n, blank);
    forall j {:trigger w[j]} {:trigger r[j]} | 0 <= j < |w| ensures Like(w[j], r[j]) {
      InsertedAt(v0, lo, hi, n, blank, j);
      assert Like(w[j], Erased(v1, lo, n, blank)[j]);
    }
  }

  /** `CSI P`: n cells at the cursor go, the rest of the line moves left and blanks come
      in at its end. */
  method DeleteChars(t: Terminal, count: nat, x: nat, y: nat)
    requires t.Valid() && x < t.cols && y < t.rows && count > 0
    modifies t.queue, t.slot, t`queueI, t`cursorX, t`cursorY
    ensures t.Valid() && t.grid[..] == old(t.grid[..]) && t.cursorX == x && t.cursorY == y
    ensures var n := if count > t.cols - x then t.cols - x else count;
      At(x, y, t.cols) + n <= Rows(y + 1, t.cols) <= |old(t.Cells())| &&
      Same(t.Cells(), Deleted(old(t.Cells()), At(x, y, t.cols), Rows(y + 1, t.cols), n, Drawn(SPACE, t.pen)))
  {
    hide Linked, View, At, Rows, Same, Faithful, Deleted, Erased, MovedUp;
    var n := if count > t.cols - x then t.cols - x else count;
    ghost var v0 := t.Cells();
    InLine(x, y, n, t.rows, t.cols);
    ShiftLeft(t, n, x, y);
    ghost var v1 := t.Cells();
    t.SetCursorPos(t.cols - n, y);
    LineStart(y, t.cols);
    PlaceInLine(t.cols - n, y, t.cols);
    EraseChars(t, n, x, y);
    DeleteDone(v0, v1, t.Cells(), At(x, y, t.cols), Rows(y + 1, t.cols), n, Drawn(SPACE, t.pen));
  }

  method ShiftLeft(t: Terminal, n: nat, x: nat, y: nat)
    requires t.Valid() && 0 < n && x + n <= t.cols && y < t.rows
    modifies t.queue, t.slot, t`queueI
    ensures t.Valid() && t.grid[..] == old(t.grid[..])
      && At(x, y, t.cols) + n <= Rows(y + 1, t.cols) <= |old(t.Cells())|
    ensures MovedUp(old(t.Cells()), t.Cells(), At(x, y, t.cols), Rows(y + 1, t.cols), n)
  {
    hide Linked, View, At, Rows, Faithful, MovedUp, Pushed;
    ghost var v0, lo, hi := t.Cells(), At(x, y, t.cols), Rows(y + 1, t.cols);
    InLine(x, y, n, t.rows, t.cols);
    LineStart(y, t.cols);
    PlaceInLine(x, y, t.cols);
    MovedUpNone(v0, lo, n);
    for i := x + n to t.cols
      invariant t.Valid() && t.grid[..] == old(t.grid[..])
      invariant MovedUp(v0, t.Cells(), lo, Rows(y, t.cols) + i, n)
    {
      ghost var v := t.Cells();
      PlaceInLine(i - n, y, t.cols);
      PlaceInLine(i, y, t.cols);
      t.MoveCharacter(i - n, y, i, y);
      MovedUpNext(v0, v, t.Cells(), lo, At(i, y, t.cols), n);
    }
  }

  lemma {:induction false} DeleteDone(v0: Grid, v1: Grid, w: Grid, lo: nat, hi: nat, n: nat, blank: Cell)
    requires lo + n <= hi <= |v0| && MovedUp(v0, v1, lo, hi, n) && Same(w, Erased(v1, hi - n, n, blank))
    ensures Same(w, Deleted(v0, lo, hi, n, blank))
  {
    var r := Deleted(v0, lo, hi, n, blank);
    forall j {:trigger w[j]} {:trigger r[j]} | 0 <= j < |w| ensures Like(w[j], r[j]) {
      DeletedAt(v0, lo, hi, n, blank, j);
      assert Like(w[j], Erased(v1, hi - n, n, blank)[j]);
    }
  }

  /** `CSI X` at the cursor, which then goes to (x, y). */
  method EraseChars(t: Terminal, count: nat, x: nat, y: nat)
    requires t.Valid() && x < t.cols && y < t.rows && t.cursorX < t.cols
    modifies t.queue, t.slot, t`queueI, t`cursorX, t`cursorY
    ensures t.Valid() && t.grid[..] == old(t.grid[..]) && t.cursorX == x && t.cursorY == y
    ensures var n := if count > t.cols - old(t.cursorX) then t.cols - old(t.cursorX) else count;
      At(old(t.cursorX), old(t.cursorY), t.cols) + n <= |old(t.Cells())| &&
      Same(t.Cells(), Erased(old(t.Cells()), At(old(t.cursorX), old(t.cursorY), t.cols), n, Drawn(SPACE, t.pen)))
  {
    hide Linked, View, At, Rows, Same, Faithful, Erased;
    var cx, cy := t.GetCursorPos();
    var n := if count > t.cols - cx then t.cols - cx else count;
    BlankAt(t, cx, cy, n);
    t.SetCursorPos(x, y);
  }

  // ----- lines -----

  /** The loops of `CSI S` and `CSI M`: n scrolls of the region from top are one deletion
      of n lines. */
  method ScrollTimes(t: Terminal, n: nat)
    requires t.Valid() && n <= t.bottom - t.top
    modifies t.queue, t.slot, t`queueI
    ensures t.Valid() && t.grid[..] == old(t.grid[..])
    ensures Rows(t.top, t.cols) + Rows(n, t.cols) <= Rows(t.bottom, t.cols) <= |old(t.Cells())|
    ensures Same(t.Cells(), Deleted(old(t.Cells()), Rows(t.top, t.cols), Rows(t.bottom, t.cols), Rows(n, t.cols),
      Drawn(SPACE, t.pen)))
  {
    hide Linked, View, At, Rows, Same, Faithful, Deleted, ScrolledUp, Fits;
    ghost var v0 := t.Cells();
    RegionFits(n, t.top, t.bottom, t.rows, t.cols);
    NoneDeleted(v0, t.top, t.bottom, t.cols, Drawn(SPACE, t.pen));
    for i := 0 to n
      invariant t.Valid() && t.grid[..] == old(t.grid[..])
      invariant Rows(t.top, t.cols) + Rows(i, t.cols) <= Rows(t.bottom, t.cols) <= |v0|
      invariant Same(t.Cells(), Deleted(v0, Rows(t.top, t.cols), Rows(t.bottom, t.cols), Rows(i, t.cols),
        Drawn(SPACE, t.pen)))
    {
      ghost var v := t.Cells();
      t.Scroll();
      RegionFits(i + 1, t.top, t.bottom, t.rows, t.cols);
      LineDeleted(v0, v, t.Cells(), i, t.top, t.bottom, t.rows, t.cols, Drawn(SPACE, t.pen));
    }
  }

  lemma {:induction false} RegionFits(n: nat, top: nat, bottom: nat, rows: nat, cols: nat)
    requires top + n <= bottom <= rows
    ensures Rows(top, cols) + Rows(n, cols) <= Rows(bottom, cols) <= Rows(rows, cols)
  {
    RowsPlus(top, n, cols);
    RowsMonotone(top + n, bottom, cols);
    RowsMonotone(bottom, rows, cols);
  }

  lemma {:induction false} NoneDeleted(v: Grid, top: nat, bottom: nat, cols: nat, blank: Cell)
    requires Rows(top, cols) <= Rows(bottom, cols) <= |v|
    ensures Rows(0, cols) == 0 && Same(v, Deleted(v, Rows(top, cols), Rows(bottom, cols), 0, blank))
      && Same(v, Inserted(v, Rows(top, cols), Rows(bottom, cols), 0, blank))
  {
    hide Rows;
    assert Rows(0, cols) == 0 by { RowsOne(cols); }
    assert Deleted(v, Rows(top, cols), Rows(bottom, cols), 0, blank) == v;
    assert Inserted(v, Rows(top, cols), Rows(bottom, cols), 0, blank) == v;
  }

  lemma {:induction false} LineDeleted(v0: Grid, v: Grid, w: Grid, i: nat, top: nat, bottom: nat, rows: nat,
      cols: nat, blank: Cell)
    requires Fits(|v|, top, bottom, rows, cols) && |v| == |v0|
      && Rows(top, cols) + Rows(i + 1, cols) <= Rows(bottom, cols)
      && Rows(top, cols) + Rows(i, cols) <= Rows(bottom, cols)
    requires Rows(bottom, cols) <= |v0|
      && Same(v, Deleted(v0, Rows(top, cols), Rows(bottom, cols), Rows(i, cols), blank))
    requires Same(w, ScrolledUp(v, top, bottom, cols, blank))
    ensures Same(w, Deleted(v0, Rows(top, cols), Rows(bottom, cols), Rows(i + 1, cols), blank))
  {
    hide Rows, Deleted, Inserted, ScrolledUp, ScrolledDown, Same, Fits;
    RowsNext(i, cols);
    ScrollIsDelete(v, top, bottom, rows, cols, blank);
    var lo, hi := Rows(top, cols), Rows(bottom, cols);
    DeletedSame(v, Deleted(v0, lo, hi, Rows(i, cols), blank), lo, hi, cols, blank);
    DeletedTwice(v0, lo, hi, Rows(i, cols), cols, blank);
    SameTrans(w, Deleted(v, lo, hi, cols, blank), Deleted(v0, lo, hi, Rows(i + 1, cols), blank));
  }

  /** The loops of `CSI T` and `CSI L`: n reverse scrolls are one insertion of n lines. */
  method RevScrollTimes(t: Terminal, n: nat)
    requires t.Valid() && n <= t.bottom - t.top
    modifies t.queue, t.slot, t`queueI
    ensures t.Valid() && t.grid[..] == old(t.grid[..])
    ensures Rows(t.top, t.cols) + Rows(n, t.cols) <= Rows(t.bottom, t.cols) <= |old(t.Cells())|
    ensures Same(t.Cells(), Inserted(old(t.Cells()), Rows(t.top, t.cols), Rows(t.bottom, t.cols), Rows(n, t.cols),
      Drawn(SPACE, t.pen)))
  {
    hide Linked, View, At, Rows, Same, Faithful, Inserted, ScrolledDown, Fits;
    ghost var v0 := t.Cells();
    RegionFits(n, t.top, t.bottom, t.rows, t.cols);
    NoneDeleted(v0, t.top, t.bottom, t.cols, Drawn(SPACE, t.pen));
    for i := 0 to n
      invariant t.Valid() && t.grid[..] == old(t.grid[..])
      invariant Rows(t.top, t.cols) + Rows(i, t.cols) <= Rows(t.bottom, t.cols) <= |v0|
      invariant Same(t.Cells(), Inserted(v0, Rows(t.top, t.cols), Rows(t.bottom, t.cols), Rows(i, t.cols),
        Drawn(SPACE, t.pen)))
    {
      ghost var v := t.Cells();
      t.RevScroll();
      RegionFits(i + 1, t.top, t.bottom, t.rows, t.cols);
      LineInserted(v0, v, t.Cells(), i, t.top, t.bottom, t.rows, t.cols, Drawn(SPACE, t.pen));
    }
  }

  lemma {:induction false} LineInserted(v0: Grid, v: Grid, w: Grid, i: nat, top: nat, bottom: nat, rows: nat,
      cols: nat, blank: Cell)
    requires Fits(|v|, top, bottom, rows, cols) && |v| == |v0|
      && Rows(top, cols) + Rows(i + 1, cols) <= Rows(bottom, cols)
      && Rows(top, cols) + Rows(i, cols) <= Rows(bottom, cols)
    requires Rows(bottom, cols) <= |v0|
      && Same(v, Inserted(v0, Rows(top, cols), Rows(bottom, cols), Rows(i, cols), blank))
    requires Same(w, ScrolledDown(v, top, bottom, cols, blank))
    ensures Same(w, Inserted(v0, Rows(top, cols), Rows(bottom, cols), Rows(i + 1, cols), blank))
  {
    hide Rows, Deleted, Inserted, ScrolledUp, ScrolledDown, Same, Fits;
    RowsNext(i, cols);
    ScrollIsDelete(v, top, bottom, rows, cols, blank);
    var lo, hi := Rows(top, cols), Rows(bottom, cols);
    InsertedSame(v, Inserted(v0, lo, hi, Rows(i, cols), blank), lo, hi, cols, blank);
    InsertedTwice(v0, lo, hi, Rows(i, cols), cols, blank);
    SameTrans(w, Inserted(v, lo, hi, cols, blank), Inserted(v0, lo, hi, Rows(i + 1, cols), blank));
  }
}
