/** The frame buffer terminal: cells are queued and drawn on a flush. */
module Term {
  import opened RowMajor
  import opened TermGrid
  import opened TermQueue

  /** Index of a position, or NONE off the screen. */
  function Spot(x: nat, y: nat, rows: nat, cols: nat): int
  {
    if x < cols && y < rows then At(x, y, cols) else NONE
  }

  /** Every cell outside the old cursor shows what the grid holds. */
  ghost predicate Faithful(shown: Grid, grid: Grid, spot: int)
  {
    |shown| == |grid| && forall p {:trigger shown[p]} {:trigger grid[p]} :: 0 <= p < |grid| && p != spot ==>
      shown[p] == grid[p]
  }

  /** The grid with the cell at spot, if any, inverted. */
  function WithCursor(g: Grid, spot: int): Grid
  {
    if 0 <= spot < |g| then g[spot := Inverted(g[spot])] else g
  }

  datatype Pen = Pen(fg: nat, bg: nat, fgDefault: bool, bgDefault: bool)

  function Drawn(c: nat, pen: Pen): Cell { Cell(c, pen.fg, pen.bg, pen.fgDefault, pen.bgDefault) }

  const SPACE: nat := 32

  class Terminal {
    const rows: nat
    const cols: nat
    const grid: array<Cell>
    const queue: array<Item>
    const slot: array<int>
    var queueI: nat
    var pen: Pen
    var cursorX: nat
    var cursorY: nat
    var oldX: nat
    var oldY: nat
    var top: nat
    var bottom: nat
    var cursorEnabled: bool
    var wrapEnabled: bool
    var scrollEnabled: bool
    /** The cell last plotted at each position. */
    ghost var shown: Grid

    ghost predicate Core()
      reads this, grid, queue, slot
    {
      && rows > 0 && cols > 0 && grid.Length == Rows(rows, cols)
      && Linked(queue[..], slot[..], queueI, rows, cols)
    }

    ghost predicate Valid()
      reads this, grid, queue, slot
    {
      && Core() && top < bottom <= rows && cursorX <= cols && cursorY < rows
      && Faithful(shown, grid[..], Spot(oldX, oldY, rows, cols))
    }

    ghost function Cells(): Grid
      requires Core()
      reads this, grid, queue, slot
    {
      View(grid[..], queue[..], slot[..])
    }

    /** `flanterm_fb_init`, once the size is known: a blank grid, nothing pending, and
        everything drawn. */
    constructor (height: nat, width: nat, p: Pen, enabled: bool)
      requires height > 0 && width > 0
      ensures Valid() && rows == height && cols == width && pen == p
      ensures Cells() == seq(Rows(height, width), i => Drawn(SPACE, p)) && queueI == 0
      ensures cursorX == 0 == cursorY && oldX == 0 == oldY && top == 0 && bottom == height && cursorEnabled == enabled
        && wrapEnabled && scrollEnabled
      ensures fresh(grid) && fresh(queue) && fresh(slot)
    {
      rows, cols, pen := height, width, p;
      grid := new Cell[Rows(height, width)](i => Drawn(SPACE, p));
      queue := new Item[Rows(height, width)](i => Item(0, 0, Drawn(0, p)));
      slot := new int[Rows(height, width)](i => NONE);
      queueI := 0;
      cursorX, cursorY, oldX, oldY := 0, 0, 0, 0;
      top, bottom := 0, height;
      cursorEnabled, wrapEnabled, scrollEnabled := enabled, true, true;
      new;
      shown := WithCursor(grid[..], if enabled then 0 else NONE);
      assert At(0, 0, cols) == 0;
      assert Cells() == seq(Rows(height, width), i => Drawn(SPACE, p));
    }

    /** The setters of the text colours. */
    method SetPen(p: Pen)
      requires Valid()
      modifies this`pen
      ensures Valid() && pen == p && Cells() == old(Cells())
    {
      hide Linked, Faithful, View;
      pen := p;
    }

    /** `flanterm_fb_restore_state` */
    method RestoreState(p: Pen, x: nat, y: nat)
      requires Valid() && x <= cols && y < rows
      modifies this`pen, this`cursorX, this`cursorY
      ensures Valid() && pen == p && cursorX == x && cursorY == y && Cells() == old(Cells())
    {
      hide Linked, Faithful, View;
      pen, cursorX, cursorY := p, x, y;
    }

    method SetCursorMode(on: bool)
      requires Valid()
      modifies this`cursorEnabled
      ensures Valid() && cursorEnabled == on && Cells() == old(Cells())
    {
      hide Linked, Faithful, View;
      cursorEnabled := on;
    }

    method SetMargins(newTop: nat, newBottom: nat)
      requires Valid() && newTop < newBottom <= rows
      modifies this`top, this`bottom
      ensures Valid() && top == newTop && bottom == newBottom && Cells() == old(Cells())
    {
      hide Linked, Faithful, View;
      top, bottom := newTop, newBottom;
    }

    /** The modes that the escape parser sets and restores. */
    method SetModes(scroll: bool, wrap: bool)
      requires Valid()
      modifies this`scrollEnabled, this`wrapEnabled
      ensures Valid() && scrollEnabled == scroll && wrapEnabled == wrap && Cells() == old(Cells())
    {
      hide Linked, Faithful, View;
      scrollEnabled, wrapEnabled := scroll, wrap;
    }

    /** `push_to_queue` */
    method PushToQueue(c: Cell, x: nat, y: nat)
      requires Core()
      modifies queue, slot, this`queueI
      ensures Core() && grid[..] == old(grid[..])
      ensures !(x < cols && y < rows) ==> Cells() == old(Cells())
      ensures x < cols && y < rows ==> Pushed(old(Cells()), Cells(), At(x, y, cols), c)
    {
      hide Linked, View, At, Rows;
      if x >= cols || y >= rows {
        return;
      }
      AtBounds(x, y, cols, rows);
      LinkedLengths(queue[..], slot[..], queueI, rows, cols);
      var i := At(x, y, cols);
      var k := slot[i];
      if k == NONE {
        if Like(grid[i], c) {
          AlreadyShown(grid[..], queue[..], slot[..], queueI, rows, cols, i, c);
          return;
        }
        RoomLeft(queue[..], slot[..], queueI, rows, cols, i);
        PushNew(grid[..], queue[..], slot[..], queueI, rows, cols, Item(x, y, c), i);
        ghost var queue0, slot0 := queue[..], slot[..];
        queue[queueI] := Item(x, y, c);
        slot[i] := queueI;
        assert queue[..] == queue0[queueI := Item(x, y, c)] && slot[..] == slot0[i := queueI];
        queueI := queueI + 1;
      } else {
        PushOld(grid[..], queue[..], slot[..], queueI, rows, cols, c, i);
        ghost var queue0 := queue[..];
        queue[k] := queue[k].(c := c);
        assert queue[..] == queue0[k := queue0[k].(c := c)];
      }
    }

    /** The cell that reads of a position see. */
    method Pick(i: nat) returns (c: Cell)
      requires Core() && i < Rows(rows, cols)
      ensures c == Cells()[i]
    {
      LinkedLengths(queue[..], slot[..], queueI, rows, cols);
      c := if slot[i] != NONE then queue[slot[i]].c else grid[i];
    }

    /** The blanking loop at the end of both scrolls. */
    method BlankRow(y: nat)
      requires Core() && y < rows
      modifies queue, slot, this`queueI
      ensures Core() && grid[..] == old(grid[..])
      ensures Blanked(old(Cells()), Cells(), Rows(y, cols), cols, Drawn(SPACE, pen))
    {
      hide Linked, View, At, Rows, Pushed, Blanked;
      ghost var v0 := Cells();
      BlankedNone(v0, Rows(y, cols), Drawn(SPACE, pen));
      AtBounds(0, y, cols, rows);
      for x := 0 to cols
        invariant Core() && grid[..] == old(grid[..]) && Blanked(v0, Cells(), Rows(y, cols), x, Drawn(SPACE, pen))
      {
        ghost var v := Cells();
        PushToQueue(Drawn(SPACE, pen), x, y);
        BlankedNext(v0, v, Cells(), y, cols, x, Drawn(SPACE, pen));
      }
    }

    /** `flanterm_fb_scroll`: copying cell by cell is the simultaneous shift. */
    method Scroll()
      requires Core() && top < bottom <= rows
      modifies queue, slot, this`queueI
      ensures Core() && grid[..] == old(grid[..]) && Fits(|old(Cells())|, top, bottom, rows, cols)
      ensures Same(Cells(), ScrolledUp(old(Cells()), top, bottom, cols, Drawn(SPACE, pen)))
    {
      hide Linked, View, At, Rows, ColOf, RowOf, Pushed, Blanked, MovedUp, Same, ScrolledUp;
      ghost var v0 := Cells();
      RowFacts(|v0|, top, bottom, rows, cols);
      MovedUpNone(v0, Rows(top, cols), cols);
      for i := Rows(top + 1, cols) to Rows(bottom, cols)
        invariant Core() && grid[..] == old(grid[..]) && MovedUp(v0, Cells(), Rows(top, cols), i, cols)
      {
        var c := Pick(i);
        ghost var v := Cells();
        Split(i - cols, cols, rows);
        PushToQueue(c, ColOf(i - cols, cols), RowOf(i - cols, cols));
        MovedUpNext(v0, v, Cells(), Rows(top, cols), i, cols);
      }
      ghost var v1 := Cells();
      BlankRow(bottom - 1);
      ScrolledUpDone(v0, v1, Cells(), top, bottom, rows, cols, Drawn(SPACE, pen));
    }

    /** `flanterm_fb_revscroll` */
    method RevScroll()
      requires Core() && top < bottom <= rows
      modifies queue, slot, this`queueI
      ensures Core() && grid[..] == old(grid[..]) && Fits(|old(Cells())|, top, bottom, rows, cols)
      ensures Same(Cells(), ScrolledDown(old(Cells()), top, bottom, cols, Drawn(SPACE, pen)))
    {
      hide Linked, View, At, Rows, ColOf, RowOf, Pushed, Blanked, MovedDown, Same, ScrolledDown;
      ghost var v0 := Cells();
      RowFacts(|v0|, top, bottom, rows, cols);
      MovedDownNone(v0, Rows(bottom - 1, cols), cols);
      var i := Rows(bottom - 1, cols);
      while i > Rows(top, cols)
        invariant Core() && grid[..] == old(grid[..]) && Rows(top, cols) <= i <= Rows(bottom - 1, cols)
        invariant MovedDown(v0, Cells(), i, Rows(bottom - 1, cols), cols)
      {
        i := i - 1;
        var c := Pick(i);
        ghost var v := Cells();
        Split(i + cols, cols, rows);
        PushToQueue(c, ColOf(i + cols, cols), RowOf(i + cols, cols));
        MovedDownNext(v0, v, Cells(), i, Rows(bottom - 1, cols), cols);
      }
      ghost var v1 := Cells();
      BlankRow(top);
      ScrolledDownDone(v0, v1, Cells(), top, bottom, rows, cols, Drawn(SPACE, pen));
    }

    /** `flanterm_fb_clear` */
    method Clear(move: bool)
      requires Valid()
      modifies queue, slot, this`queueI, this`cursorX, this`cursorY
      ensures Valid() && grid[..] == old(grid[..])
      ensures Same(Cells(), Cleared(old(Cells()), Drawn(SPACE, pen)))
      ensures if move then cursorX == 0 && cursorY == 0 else cursorX == old(cursorX) && cursorY == old(cursorY)
    {
      hide Linked, View, At, Rows, ColOf, RowOf, Pushed, Blanked, Same, Cleared, Faithful;
      ghost var v0 := Cells();
      BlankedNone(v0, 0, Drawn(SPACE, pen));
      for i := 0 to Rows(rows, cols)
        invariant Core() && grid[..] == old(grid[..]) && Blanked(v0, Cells(), 0, i, Drawn(SPACE, pen))
        invariant cursorX == old(cursorX) && cursorY == old(cursorY)
      {
        ghost var v := Cells();
        Split(i, cols, rows);
        PushToQueue(Drawn(SPACE, pen), ColOf(i, cols), RowOf(i, cols));
        BlankedStep(v0, v, Cells(), 0, i, Drawn(SPACE, pen));
      }
      ClearedDone(v0, Cells(), Drawn(SPACE, pen));
      if move {
        cursorX, cursorY := 0, 0;
      }
    }

    /** `flanterm_fb_move_character` */
    method MoveCharacter(newX: nat, newY: nat, x: nat, y: nat)
      requires Core()
      modifies queue, slot, this`queueI
      ensures Core() && grid[..] == old(grid[..])
      ensures !(x < cols && y < rows && newX < cols && newY < rows) ==> Cells() == old(Cells())
      ensures x < cols && y < rows && newX < cols && newY < rows ==>
                At(x, y, cols) < |old(Cells())|
                  && Pushed(old(Cells()), Cells(), At(newX, newY, cols), old(Cells())[At(x, y, cols)])
    {
      hide Linked, View, At, Rows;
      if x >= cols || y >= rows || newX >= cols || newY >= rows {
        return;
      }
      AtBounds(x, y, cols, rows);
      var c := Pick(At(x, y, cols));
      PushToQueue(c, newX, newY);
    }

    /** `flanterm_fb_set_cursor_pos`: coordinates off the screen go to the last line or
        column, and those that wrapped below zero to the first. */
    method SetCursorPos(x: nat, y: nat)
      requires rows > 0 && cols > 0
      modifies this`cursorX, this`cursorY
      ensures cursorX == Clamped(x, cols) && cursorY == Clamped(y, rows)
      ensures (old(Core()) ==> Core()) && (old(Valid()) ==> Valid())
    {
      hide Linked, Faithful;
      cursorX, cursorY := Clamped(x, cols), Clamped(y, rows);
    }

    /** `flanterm_fb_get_cursor_pos` */
    method GetCursorPos() returns (x: nat, y: nat)
      requires rows > 0 && cols > 0
      ensures x == (if cursorX < cols then cursorX else cols - 1) && y == if cursorY < rows then cursorY else rows - 1
    {
      x := if cursorX >= cols then cols - 1 else cursorX;
      y := if cursorY >= rows then rows - 1 else cursorY;
    }

    /** `flanterm_fb_raw_putchar` */
    method RawPutchar(c: nat)
      requires Valid()
      modifies queue, slot, this`queueI, this`cursorX, this`cursorY
      ensures Valid() && grid[..] == old(grid[..]) && Fits(|old(Cells())|, top, bottom, rows, cols)
      ensures var p := Landing(old(cursorX), old(cursorY), bottom, rows, cols, wrapEnabled, scrollEnabled);
        && cursorX == p.x + 1 && cursorY == p.y && At(p.x, p.y, cols) < |old(Cells())|
        && Same(Cells(), Written(old(Cells()), p, top, bottom, cols, Drawn(SPACE, pen), Drawn(c, pen)))
    {
      hide Linked, View, At, Rows, Pushed, Same, ScrolledUp, Faithful, Fits, Like;
      ghost var v0 := Cells();
      ghost var p := Landing(cursorX, cursorY, bottom, rows, cols, wrapEnabled, scrollEnabled);
      RowFacts(|v0|, top, bottom, rows, cols);
      AtBounds(p.x, p.y, cols, rows);
      SameAlready(v0);
      if cursorX >= cols {
        if wrapEnabled && (cursorY < bottom - 1 || scrollEnabled) {
          cursorX := 0;
          cursorY := cursorY + 1;
          if cursorY == bottom {
            cursorY := cursorY - 1;
            Scroll();
          }
          if cursorY >= rows {
            cursorY := rows - 1;
          }
        } else {
          cursorX := cols - 1;
        }
      }
      ghost var v1 := Cells();
      PushToQueue(Drawn(c, pen), cursorX, cursorY);
      PutDone(if p.scrolled then ScrolledUp(v0, top, bottom, cols, Drawn(SPACE, pen))
        else v0, v1, Cells(), At(p.x, p.y, cols), Drawn(c, pen));
      cursorX := cursorX + 1;
    }

    /** `draw_cursor` */
    method DrawCursor()
      requires Core() && |shown| == grid.Length
      modifies grid, slot, this`shown
      ensures |shown| == grid.Length
      ensures var s := Spot(cursorX, cursorY, rows, cols);
        if s == NONE then grid[..] == old(grid[..]) && slot[..] == old(slot[..]) && shown == old(shown)
        else
          0 <= s < |old(Cells())| && grid[..] == old(grid[..])[s := old(Cells())[s]]
          && slot[..] == old(slot[..])[s := NONE]
          && shown == old(shown)[s := Inverted(old(Cells())[s])]
    {
      hide Linked, At, Rows;
      if cursorX >= cols || cursorY >= rows {
        return;
      }
      AtBounds(cursorX, cursorY, cols, rows);
      LinkedLengths(queue[..], slot[..], queueI, rows, cols);
      var i := At(cursorX, cursorY, cols);
      var k := slot[i];
      var c := if k != NONE then queue[k].c else grid[i];
      assert c == Cells()[i];
      shown := shown[i := Inverted(c)];
      ghost var grid0, slot0 := grid[..], slot[..];
      if k != NONE {
        grid[i] := queue[k].c;
        slot[i] := NONE;
      }
      assert grid[..] == grid0[i := c] && slot[..] == slot0[i := NONE];
    }

    /** `flanterm_fb_full_refresh` with nothing pending. It does not note where it drew the
        cursor. */
    method FullRefresh()
      requires Valid() && queueI == 0
      modifies grid, slot, this`shown
      ensures Core() && grid[..] == old(grid[..]) && slot[..] == old(slot[..])
      ensures shown == WithCursor(grid[..], if cursorEnabled then Spot(cursorX, cursorY, rows, cols) else NONE)
      ensures Valid() <==> (cursorEnabled && Spot(cursorX, cursorY, rows, cols) != NONE ==>
                Spot(cursorX, cursorY, rows, cols) == Spot(oldX, oldY, rows, cols)
                  || AloneInverted(grid[..], Spot(cursorX, cursorY, rows, cols)))
    {
      hide Rows, At;
      ghost var grid0, slot0 := grid[..], slot[..];
      assert Cells() == grid0;
      for i := 0 to Rows(rows, cols)
        invariant |shown| == grid.Length == Rows(rows, cols) && grid[..] == grid0 && slot[..] == slot0
        invariant forall p :: 0 <= p < i ==> shown[p] == grid[p]
      {
        shown := shown[i := grid[i]];
      }
      assert shown == grid0;
      if cursorEnabled {
        DrawCursor();
        assert grid[..] == grid0;
        assert slot[..] == slot0;
      }
    }

    /** The drawing loop of a flush. */
    method DrawPending(ghost v0: Grid, ghost slot0: seq<int>, ghost shown0: Grid, ghost spot: int)
      requires Linked(queue[..], slot0, queueI, rows, cols)
        && Flushing(v0, slot0, shown0, grid[..], slot[..], shown, spot, 0)
      requires forall k {:trigger queue[k]} :: 0 <= k < queueI <= queue.Length ==>
        At(queue[k].x, queue[k].y, cols) < |v0| && queue[k].c == v0[At(queue[k].x, queue[k].y, cols)]
      modifies grid, slot, this`shown
      ensures Flushing(v0, slot0, shown0, grid[..], slot[..], shown, spot, queueI)
    {
      hide Linked, Rows, At, Flushing;
      LinkedLengths(queue[..], slot0, queueI, rows, cols);
      for i := 0 to queueI
        invariant Flushing(v0, slot0, shown0, grid[..], slot[..], shown, spot, i)
      {
        var q := queue[i];
        PlaceOnScreen(queue[..], slot0, queueI, rows, cols, i);
        var offset := At(q.x, q.y, cols);
        FlushLengths(v0, slot0, shown0, grid[..], slot[..], shown, spot, i);
        FlushStep(queue[..], v0, slot0, shown0, grid[..], slot[..], shown, spot, i, offset, rows, cols, queueI, q.c);
        if slot[offset] != NONE {
          ghost var grid1, slot1 := grid[..], slot[..];
          shown := shown[offset := q.c];
          grid[offset] := q.c;
          slot[offset] := NONE;
          assert grid[..] == grid1[offset := q.c] && slot[..] == slot1[offset := NONE];
        }
      }
    }

    /** `flanterm_fb_double_buffer_flush`: afterwards the grid is what the view was. The
        cursor cell is drawn inverted, pending cells and the old cursor cell are drawn as they
        are, and nothing else; so from a valid state the screen shows the grid. */
    method Flush()
      requires Core() && |shown| == grid.Length
      modifies grid, slot, this`queueI, this`shown, this`oldX, this`oldY
      ensures Core() && queueI == 0 && grid[..] == old(Cells()) && Cells() == old(Cells()) && oldX == cursorX
        && oldY == cursorY
      ensures Redrawn(grid[..], old(slot[..]), old(shown), shown, CursorSpot(), Spot(old(oldX), old(oldY), rows, cols))
      ensures old(Valid()) ==> Valid() && shown == WithCursor(grid[..], CursorSpot())
    {
      hide Linked, Rows, At, Flushing, View, Faithful, WithCursor, Redrawn;
      ghost var v0, grid0, slot0, shown0 := Cells(), grid[..], slot[..], shown;
      ghost var was := Spot(oldX, oldY, rows, cols);
      LinkedLengths(queue[..], slot[..], queueI, rows, cols);
      FlushStart(grid[..], queue[..], slot[..], queueI, rows, cols, shown, CursorSpot());
      if cursorEnabled {
        DrawCursor();
      }
      PendingCells(grid0, queue[..], slot0, queueI, rows, cols);
      DrawPending(v0, slot0, shown0, CursorSpot());
      FlushEnd(queue[..], v0, slot0, shown0, grid[..], slot[..], shown, CursorSpot(), queueI, rows, cols);
      ghost var shown1 := shown;
      if oldX != cursorX || oldY != cursorY || !cursorEnabled {
        if oldX < cols && oldY < rows {
          AtBounds(oldX, oldY, cols, rows);
          shown := shown[At(oldX, oldY, cols) := grid[At(oldX, oldY, cols)]];
        }
      }
      OldSpot(oldX, oldY, cursorX, cursorY, rows, cols);
      OldRedrawn(v0, slot0, shown0, shown1, shown, CursorSpot(), was);
      FaithfulShown(grid0, queue[..], slot0, rows, cols, old(queueI), v0, shown0, shown, CursorSpot(), was,
        Spot(cursorX, cursorY, rows, cols));
      oldX, oldY := cursorX, cursorY;
      queueI := 0;
    }

    /** Where the cursor is drawn, if anywhere. */
    ghost function CursorSpot(): int
      reads this
    {
      if cursorEnabled then Spot(cursorX, cursorY, rows, cols) else NONE
    }
  }

  /** Position i now holds a cell like c and all others what they held. */
  ghost predicate Pushed(v: Grid, w: Grid, i: nat, c: Cell)
  {
    |w| == |v| && i < |v| && w == v[i := w[i]] && Like(w[i], c)
  }

  lemma {:induction false} LinkedLengths(queue: seq<Item>, slot: seq<int>, n: nat, rows: nat, cols: nat)
    requires Linked(queue, slot, n, rows, cols)
    ensures |queue| == |slot| == Rows(rows, cols) && n <= |queue|
    ensures forall i {:trigger slot[i]} :: 0 <= i < |slot| ==> slot[i] == NONE || 0 <= slot[i] < n
  {
  }

  lemma {:induction false} AlreadyShown(grid: seq<Cell>, queue: seq<Item>, slot: seq<int>, n: nat, rows: nat,
      cols: nat, i: nat, c: Cell)
    requires Linked(queue, slot, n, rows, cols) && |grid| == |slot| && i < |slot| && slot[i] == NONE && Like(grid[i], c)
    ensures Pushed(View(grid, queue, slot), View(grid, queue, slot), i, c)
  {
  }

  /** Blanks from start on for n cells, all else as it was. */
  ghost predicate Blanked(v: Grid, w: Grid, start: nat, n: nat, blank: Cell)
  {
    && |w| == |v|
    && (forall j {:trigger w[j]} :: 0 <= j < |v| && start <= j < start + n ==> Like(w[j], blank))
    && (forall j {:trigger w[j]} :: 0 <= j < |v| && !(start <= j < start + n) ==> w[j] == v[j])
  }

  lemma {:induction false} BlankedNone(v: Grid, start: nat, blank: Cell)
    ensures Blanked(v, v, start, 0, blank)
  {
  }

  lemma {:induction false} BlankedStep(v0: Grid, v: Grid, w: Grid, start: nat, n: nat, blank: Cell)
    requires Blanked(v0, v, start, n, blank) && Pushed(v, w, start + n, blank)
    ensures Blanked(v0, w, start, n + 1, blank)
  {
  }

  lemma {:induction false} BlankedNext(v0: Grid, v: Grid, w: Grid, y: nat, cols: nat, x: nat, blank: Cell)
    requires Blanked(v0, v, Rows(y, cols), x, blank) && Pushed(v, w, At(x, y, cols), blank)
    ensures Blanked(v0, w, Rows(y, cols), x + 1, blank)
  {
    assert At(x, y, cols) == Rows(y, cols) + x;
    BlankedStep(v0, v, w, Rows(y, cols), x, blank);
  }

  lemma {:induction false} ClearedDone(v0: Grid, w: Grid, blank: Cell)
    requires Blanked(v0, w, 0, |v0|, blank)
    ensures Same(w, Cleared(v0, blank))
  {
  }

  /** The cells from lo up to i - cols hold what was one row below. */
  ghost predicate MovedUp(v: Grid, w: Grid, lo: nat, i: nat, cols: nat)
  {
    && |w| == |v| && i <= |v|
    && (forall j {:trigger w[j]} :: 0 <= j < |v| && lo <= j < i - cols ==> Like(w[j], v[j + cols]))
    && (forall j {:trigger w[j]} :: 0 <= j < |v| && !(lo <= j < i - cols) ==> w[j] == v[j])
  }

  lemma {:induction false} MovedUpNone(v: Grid, lo: nat, cols: nat)
    requires lo + cols <= |v|
    ensures MovedUp(v, v, lo, lo + cols, cols)
  {
  }

  lemma {:induction false} MovedUpNext(v0: Grid, v: Grid, w: Grid, lo: nat, i: nat, cols: nat)
    requires MovedUp(v0, v, lo, i, cols) && lo + cols <= i < |v0| && 0 < cols && Pushed(v, w, i - cols, v[i])
    ensures MovedUp(v0, w, lo, i + 1, cols)
  {
  }

  /** The cells from i + cols up to hi + cols hold what was one row above. */
  ghost predicate MovedDown(v: Grid, w: Grid, i: nat, hi: nat, cols: nat)
  {
    && |w| == |v| && hi + cols <= |v|
    && (forall j {:trigger w[j]} :: 0 <= j < |v| && i + cols <= j < hi + cols ==> Like(w[j], v[j - cols]))
    && (forall j {:trigger w[j]} :: 0 <= j < |v| && !(i + cols <= j < hi + cols) ==> w[j] == v[j])
  }

  lemma {:induction false} MovedDownNone(v: Grid, hi: nat, cols: nat)
    requires hi + cols <= |v|
    ensures MovedDown(v, v, hi, hi, cols)
  {
  }

  lemma {:induction false} MovedDownNext(v0: Grid, v: Grid, w: Grid, i: nat, hi: nat, cols: nat)
    requires MovedDown(v0, v, i + 1, hi, cols) && i < hi && 0 < cols && Pushed(v, w, i + cols, v[i])
    ensures MovedDown(v0, w, i, hi, cols)
  {
  }

  /** The scroll region lies inside a grid of n cells. */
  ghost predicate Fits(n: nat, top: nat, bottom: nat, rows: nat, cols: nat)
  {
    top < bottom && Rows(top, cols) <= Rows(bottom - 1, cols) && Rows(bottom - 1, cols) + cols <= n == Rows(rows, cols)
  }

  lemma {:induction false} RowFacts(n: nat, top: nat, bottom: nat, rows: nat, cols: nat)
    requires top < bottom <= rows && n == Rows(rows, cols)
    ensures Rows(top + 1, cols) == Rows(top, cols) + cols && Rows(top + 1, cols) <= Rows(bottom, cols) <= n
    ensures Rows(bottom, cols) == Rows(bottom - 1, cols) + cols && Fits(n, top, bottom, rows, cols)
  {
    RowsNext(top, cols);
    RowsNext(bottom - 1, cols);
    RowsMonotone(top, bottom - 1, cols);
    RowsMonotone(bottom, rows, cols);
  }

  lemma {:induction false} ScrolledUpDone(v0: Grid, v1: Grid, w: Grid, top: nat, bottom: nat, rows: nat, cols: nat,
      blank: Cell)
    requires Fits(|v0|, top, bottom, rows, cols) && MovedUp(v0, v1, Rows(top, cols), Rows(bottom, cols), cols)
      && Rows(bottom, cols) == Rows(bottom - 1, cols) + cols
    requires Blanked(v1, w, Rows(bottom - 1, cols), cols, blank)
    ensures Same(w, ScrolledUp(v0, top, bottom, cols, blank))
  {
    hide Rows;
  }

  lemma {:induction false} ScrolledDownDone(v0: Grid, v1: Grid, w: Grid, top: nat, bottom: nat, rows: nat, cols: nat,
      blank: Cell)
    requires Fits(|v0|, top, bottom, rows, cols) && MovedDown(v0, v1, Rows(top, cols), Rows(bottom - 1, cols), cols)
    requires Blanked(v1, w, Rows(top, cols), cols, blank)
    ensures Same(w, ScrolledDown(v0, top, bottom, cols, blank))
  {
    hide Rows;
  }

  /** A size_t coordinate brought onto the screen. */
  function Clamped(x: nat, n: nat): (r: nat)
    requires n > 0
    ensures r < n && (x < n ==> r == x)
  {
    if x < n then x else if x > 0x7FFF_FFFF_FFFF_FFFF then 0 else n - 1
  }

  /** Where a character lands, and whether the region scrolls first. */
  datatype Spotted = Spotted(x: nat, y: nat, scrolled: bool)

  function Landing(x: nat, y: nat, bottom: nat, rows: nat, cols: nat, wrap: bool, scroll: bool): (p: Spotted)
    requires x <= cols && y < rows && 0 < cols && 0 < bottom <= rows
    ensures p.x < cols && p.y < rows
  {
    if x < cols then Spotted(x, y, false)
    else if !(wrap && (y < bottom - 1 || scroll)) then Spotted(cols - 1, y, false)
    else if y + 1 == bottom then Spotted(0, y, true)
    else Spotted(0, if y + 1 < rows then y + 1 else y, false)
  }

  function Written(g: Grid, p: Spotted, top: nat, bottom: nat, cols: nat, blank: Cell, c: Cell): Grid
    requires top < bottom && Rows(bottom - 1, cols) + cols <= |g| && At(p.x, p.y, cols) < |g|
  {
    (if p.scrolled then ScrolledUp(g, top, bottom, cols, blank) else g)[At(p.x, p.y, cols) := c]
  }

  lemma {:induction false} SameAlready(v: Grid)
    ensures Same(v, v)
  {
  }

  lemma {:induction false} PutDone(u: Grid, v: Grid, w: Grid, i: nat, c: Cell)
    requires Same(v, u) && Pushed(v, w, i, c)
    ensures i < |u| && Same(w, u[i := c])
  {
  }

  // ----- flushing -----

  /** Inverting the cell at spot changes nothing. */
  ghost predicate AloneInverted(g: Grid, spot: int)
  {
    0 <= spot < |g| && Inverted(g[spot]) == g[spot]
  }

  /** Some items are drawn: positions with nothing pending hold their final cell, and the
      others are still to come. */
  ghost predicate Flushing(v: Grid, slot0: seq<int>, shown0: Grid, grid: Grid, slot: seq<int>, shown: Grid, spot: int,
      i: nat)
  {
    && |v| == |slot0| == |grid| == |slot| == |shown| == |shown0|
    && (forall p {:trigger slot[p]} {:trigger grid[p]} :: 0 <= p < |v| && slot[p] == NONE ==> grid[p] == v[p])
    && (forall p {:trigger slot[p]} :: 0 <= p < |v| && slot[p] != NONE ==>
         slot[p] == slot0[p] && i <= slot[p] && p != spot)
    && (forall p {:trigger shown[p]} :: 0 <= p < |v| && p != spot && slot[p] == NONE ==>
          shown[p] == if slot0[p] != NONE then v[p] else shown0[p])
    && (0 <= spot < |v| ==> shown[spot] == Inverted(v[spot]))
  }

  /** What a flush draws: the cursor cell inverted, and the pending cells and the old cursor
      cell as they are. */
  ghost predicate Redrawn(v: Grid, slot0: seq<int>, shown0: Grid, shown: Grid, spot: int, was: int)
  {
    && |v| == |slot0| == |shown0| == |shown|
    && forall p {:trigger shown[p]} :: 0 <= p < |v| ==>
         shown[p] == if p == spot then Inverted(v[p]) else if slot0[p] != NONE || p == was then v[p] else shown0[p]
  }

  lemma {:induction false} FlushLengths(v: Grid, slot0: seq<int>, shown0: Grid, grid: Grid, slot: seq<int>,
      shown: Grid, spot: int, i: nat)
    requires Flushing(v, slot0, shown0, grid, slot, shown, spot, i)
    ensures |v| == |slot0| == |grid| == |slot| == |shown| == |shown0|
  {
  }

  lemma {:induction false} FlushStart(grid: Grid, queue: seq<Item>, slot: seq<int>, n: nat, rows: nat, cols: nat,
      shown: Grid, spot: int)
    requires Linked(queue, slot, n, rows, cols) && |grid| == |slot| == |shown|
    ensures var v := View(grid, queue, slot);
      && (spot == NONE ==> Flushing(v, slot, shown, grid, slot, shown, spot, 0))
      && (0 <= spot < |grid| ==>
            Flushing(v, slot, shown, grid[spot := v[spot]], slot[spot := NONE], shown[spot := Inverted(v[spot])],
              spot, 0))
  {
  }

  lemma {:induction false} PlaceOnScreen(queue: seq<Item>, slot: seq<int>, n: nat, rows: nat, cols: nat, i: nat)
    requires Linked(queue, slot, n, rows, cols) && i < n
    ensures i < |queue| && At(queue[i].x, queue[i].y, cols) < |slot| && slot[At(queue[i].x, queue[i].y, cols)] == i
  {
    assert OnScreen(queue[i], rows, cols);
  }

  lemma {:induction false} PendingCells(grid: Grid, queue: seq<Item>, slot: seq<int>, n: nat, rows: nat, cols: nat)
    requires Linked(queue, slot, n, rows, cols) && |grid| == |slot|
    ensures forall k {:trigger queue[k]} :: 0 <= k < n ==>
      At(queue[k].x, queue[k].y, cols) < |grid|
      && queue[k].c == View(grid, queue, slot)[At(queue[k].x, queue[k].y, cols)]
  {
    forall k {:trigger queue[k]} | 0 <= k < n
      ensures At(queue[k].x, queue[k].y, cols) < |grid|
        && queue[k].c == View(grid, queue, slot)[At(queue[k].x, queue[k].y, cols)]
    {
      PlaceOnScreen(queue, slot, n, rows, cols, k);
    }
  }

  lemma {:induction false} FlushStep(queue: seq<Item>, v: Grid, slot0: seq<int>, shown0: Grid, grid: Grid,
      slot: seq<int>, shown: Grid,
                                     spot: int, i: nat, offset: nat, rows: nat, cols: nat, n: nat, c: Cell)
    requires Flushing(v, slot0, shown0, grid, slot, shown, spot, i) && offset < |slot| && slot0[offset] == i
    requires Linked(queue, slot0, n, rows, cols) && v[offset] == c
    ensures slot[offset] == NONE ==> Flushing(v, slot0, shown0, grid, slot, shown, spot, i + 1)
    ensures slot[offset] != NONE ==>
      Flushing(v, slot0, shown0, grid[offset := c], slot[offset := NONE], shown[offset := c], spot, i + 1)
  {
    forall p {:trigger slot[p]} | 0 <= p < |v| && slot[p] == i ensures p == offset {
      assert Place(queue, slot0[p], cols) == p && Place(queue, slot0[offset], cols) == offset;
    }
  }

  lemma {:induction false} FlushEnd(queue: seq<Item>, v: Grid, slot0: seq<int>, shown0: Grid, grid: Grid,
      slot: seq<int>, shown: Grid,
                                    spot: int, n: nat, rows: nat, cols: nat)
    requires Flushing(v, slot0, shown0, grid, slot, shown, spot, n) && Linked(queue, slot0, n, rows, cols)
    ensures grid == v && |queue| == |slot| && (forall p :: 0 <= p < |slot| ==> slot[p] == NONE)
    ensures Redrawn(v, slot0, shown0, shown, spot, NONE)
    ensures Linked(queue, slot, 0, rows, cols) && View(grid, queue, slot) == v
  {
    forall p {:trigger slot[p]} | 0 <= p < |slot| ensures slot[p] == NONE {
      assert slot0[p] == NONE || slot0[p] < n;
    }
    assert forall p :: 0 <= p < |v| ==> grid[p] == v[p];
  }

  /** The old cursor cell is drawn last, unless it is the cursor. */
  lemma {:induction false} OldRedrawn(v: Grid, slot0: seq<int>, shown0: Grid, shown: Grid, shown': Grid, spot: int,
      was: int)
    requires Redrawn(v, slot0, shown0, shown, spot, NONE) && (was == NONE || 0 <= was < |v|)
    requires shown' == if was != NONE && was != spot then shown[was := v[was]] else shown
    ensures Redrawn(v, slot0, shown0, shown', spot, was)
  {
  }

  /** If only the old cursor cell was out of step, the screen now shows the grid. */
  lemma {:induction false} FaithfulShown(grid: Grid, queue: seq<Item>, slot: seq<int>, rows: nat, cols: nat, n: nat,
      v: Grid, shown0: Grid,
                                         shown: Grid, spot: int, was: int, now: int)
    requires Linked(queue, slot, n, rows, cols) && |grid| == |slot| && v == View(grid, queue, slot)
    requires Redrawn(v, slot, shown0, shown, spot, was) && (spot == NONE || spot == now)
    ensures Faithful(shown0, grid, was) ==> shown == WithCursor(v, spot) && Faithful(shown, v, now)
  {
    if Faithful(shown0, grid, was) {
      assert forall p :: 0 <= p < |v| ==> shown[p] == WithCursor(v, spot)[p];
    }
  }

  /** From a screen that shows the grid with a cursor at c, a flush gives the right screen
      exactly if that cursor is drawn over or cannot be seen. */
  lemma {:induction false} StaleExact(grid: Grid, queue: seq<Item>, slot: seq<int>, rows: nat, cols: nat, n: nat,
      v: Grid,
                                      shown: Grid, spot: int, was: int, c: int)
    requires Linked(queue, slot, n, rows, cols) && |grid| == |slot| && v == View(grid, queue, slot)
    requires Redrawn(v, slot, WithCursor(grid, c), shown, spot, was) && (c == NONE || 0 <= c < |grid|)
    ensures shown == WithCursor(v, spot) <==>
      c == NONE || c == spot || c == was || slot[c] != NONE || AloneInverted(grid, c)
  {
    forall p | 0 <= p < |v| && p != c ensures shown[p] == WithCursor(v, spot)[p] {
    }
    if c != NONE {
      assert shown == WithCursor(v, spot) <==> shown[c] == WithCursor(v, spot)[c];
    }
  }

  lemma {:induction false} OldSpot(x: nat, y: nat, x': nat, y': nat, rows: nat, cols: nat)
    ensures Spot(x, y, rows, cols) == Spot(x', y', rows, cols) != NONE ==> x == x' && y == y'
  {
    if x < cols && x' < cols && y < rows && y' < rows && At(x, y, cols) == At(x', y', cols) {
      AtUnique(x, y, x', y', cols);
    }
  }
}
