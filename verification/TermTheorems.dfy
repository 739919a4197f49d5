/** Whole runs of the terminal against a plain grid that is drawn directly. */
module TermTheorems {
  import opened RowMajor
  import opened TermGrid
  import opened TermQueue
  import opened Term

  datatype Command =
    | CPut(c: nat)
    | CScroll
    | CRevScroll
    | CClear(move: bool)
    | CMove(newX: nat, newY: nat, x: nat, y: nat)
    | CCursor(x: nat, y: nat)
    | CPen(pen: Pen)
    | CMargins(top: nat, bottom: nat)
    | CModes(cursor: bool, wrap: bool, scroll: bool)
    | CFlush

  /** A terminal that draws at once. */
  datatype Plain = Plain(rows: nat, cols: nat, g: Grid, x: nat, y: nat, pen: Pen, top: nat, bottom: nat, cursor: bool,
    wrap: bool, scroll: bool)

  ghost predicate Proper(m: Plain)
  {
    && m.rows > 0 && m.cols > 0 && |m.g| == Rows(m.rows, m.cols) && m.x <= m.cols && m.y < m.rows
    && m.top < m.bottom <= m.rows && Fits(|m.g|, m.top, m.bottom, m.rows, m.cols)
  }

  predicate Sensible(c: Command, rows: nat)
  {
    c.CMargins? ==> c.top < c.bottom <= rows
  }

  /** A plain terminal of the same size. */
  ghost predicate Alike(m: Plain, r: Plain) { Proper(r) && r.rows == m.rows && r.cols == m.cols }

  function Blank(m: Plain): Cell { Drawn(SPACE, m.pen) }

  /** One character, after a line feed if the line is full. */
  function Typed(m: Plain, ch: nat): (r: Plain)
    requires Proper(m)
    ensures Alike(m, r)
  {
    var p := Landing(m.x, m.y, m.bottom, m.rows, m.cols, m.wrap, m.scroll);
    AtBounds(p.x, p.y, m.cols, m.rows);
    m.(g := Written(m.g, p, m.top, m.bottom, m.cols, Blank(m), Drawn(ch, m.pen)), x := p.x + 1, y := p.y)
  }

  function Moved(m: Plain, newX: nat, newY: nat, x: nat, y: nat): (r: Plain)
    requires Proper(m)
    ensures Alike(m, r)
  {
    if x < m.cols && y < m.rows && newX < m.cols && newY < m.rows then
      AtBounds(x, y, m.cols, m.rows);
      AtBounds(newX, newY, m.cols, m.rows);
      m.(g := m.g[At(newX, newY, m.cols) := m.g[At(x, y, m.cols)]])
    else m
  }

  function Rolled(m: Plain, up: bool): (r: Plain)
    requires Proper(m)
    ensures Alike(m, r)
  {
    if up then m.(g := ScrolledUp(m.g, m.top, m.bottom, m.cols, Blank(m)))
    else m.(g := ScrolledDown(m.g, m.top, m.bottom, m.cols, Blank(m)))
  }

  function Wiped(m: Plain, move: bool): (r: Plain)
    requires Proper(m)
    ensures Alike(m, r)
  {
    if move then m.(g := Cleared(m.g, Blank(m)), x := 0, y := 0) else m.(g := Cleared(m.g, Blank(m)))
  }

  function Put(m: Plain, x: nat, y: nat): (r: Plain)
    requires Proper(m)
    ensures Alike(m, r)
  {
    m.(x := Clamped(x, m.cols), y := Clamped(y, m.rows))
  }

  function Bounded(m: Plain, top: nat, bottom: nat): (r: Plain)
    requires Proper(m) && top < bottom <= m.rows
    ensures Alike(m, r)
  {
    RowFacts(|m.g|, top, bottom, m.rows, m.cols);
    m.(top := top, bottom := bottom)
  }

  function Act(m: Plain, c: Command): (r: Plain)
    requires Proper(m) && Sensible(c, m.rows)
    ensures Alike(m, r)
  {
    match c
    case CPut(ch) => Typed(m, ch)
    case CScroll => Rolled(m, true)
    case CRevScroll => Rolled(m, false)
    case CClear(move) => Wiped(m, move)
    case CMove(newX, newY, x, y) => Moved(m, newX, newY, x, y)
    case CCursor(x, y) => Put(m, x, y)
    case CPen(pen) => m.(pen := pen)
    case CMargins(top, bottom) => Bounded(m, top, bottom)
    case CModes(cursor, wrap, scroll) => m.(cursor := cursor, wrap := wrap, scroll := scroll)
    case CFlush => m
  }

  ghost function ActAll(m: Plain, cmds: seq<Command>): (r: Plain)
    requires Proper(m) && forall i :: 0 <= i < |cmds| ==> Sensible(cmds[i], m.rows)
    ensures Alike(m, r)
  {
    if cmds == [] then m else Act(ActAll(m, cmds[..|cmds| - 1]), cmds[|cmds| - 1])
  }

  /** The terminal's view is the plain grid, and all other state is equal. */
  ghost predicate Agrees(t: Terminal, m: Plain)
    reads t, t.grid, t.queue, t.slot
  {
    && t.Valid() && t.rows == m.rows && t.cols == m.cols && Same(t.Cells(), m.g) && t.cursorX == m.x
         && t.cursorY == m.y && t.pen == m.pen
    && t.top == m.top && t.bottom == m.bottom && t.cursorEnabled == m.cursor && t.wrapEnabled == m.wrap
         && t.scrollEnabled == m.scroll
  }

  /** What the screen shows of it: the cursor cell is inverted. */
  function Visible(m: Plain): Grid
  {
    WithCursor(m.g, if m.cursor then Spot(m.x, m.y, m.rows, m.cols) else NONE)
  }

  /** One command. */
  method Step(t: Terminal, c: Command, ghost m: Plain)
    requires Proper(m) && Agrees(t, m) && Sensible(c, m.rows)
    modifies t, t.grid, t.queue, t.slot
    ensures Agrees(t, Act(m, c))
    ensures c.CFlush? ==> Same(t.shown, Visible(m))
  {
    hide Agrees, Proper, Typed, Moved, Rolled, Wiped, Same, Visible;
    match c
    case CPut(ch) => StepPut(t, ch, m);
    case CScroll => StepScroll(t, c, m);
    case CRevScroll => StepScroll(t, c, m);
    case CClear(move) => StepClear(t, move, m);
    case CMove(newX, newY, x, y) => StepMove(t, c, m);
    case CCursor(x, y) => StepSet(t, c, m);
    case CPen(pen) => StepSet(t, c, m);
    case CMargins(top, bottom) => StepSet(t, c, m);
    case CModes(cursor, wrap, scroll) => StepSet(t, c, m);
    case CFlush => StepFlush(t, m);
  }

  method StepClear(t: Terminal, move: bool, ghost m: Plain)
    requires Proper(m) && Agrees(t, m)
    modifies t, t.queue, t.slot
    ensures Agrees(t, Wiped(m, move))
  {
    hide Linked, View, Rows, Like, Faithful, Cleared, Same, Fits;
    ghost var v := t.Cells();
    t.Clear(move);
    ClearSame(v, m.g, Blank(m));
  }

  /** The commands that leave the cells alone. */
  method StepSet(t: Terminal, c: Command, ghost m: Plain)
    requires Proper(m) && Agrees(t, m) && Sensible(c, m.rows) && (c.CCursor? || c.CPen? || c.CMargins? || c.CModes?)
    modifies t
    ensures Agrees(t, Act(m, c))
  {
    hide Terminal.Valid, Terminal.Core, Rows, Same, Fits;
    match c
    case CCursor(x, y) => t.SetCursorPos(x, y);
    case CPen(pen) => t.SetPen(pen);
    case CMargins(top, bottom) => t.SetMargins(top, bottom);
    case CModes(cursor, wrap, scroll) =>
      t.SetCursorMode(cursor);
      t.SetModes(scroll, wrap);
  }

  method StepScroll(t: Terminal, c: Command, ghost m: Plain)
    requires Proper(m) && Agrees(t, m) && (c.CScroll? || c.CRevScroll?)
    modifies t, t.queue, t.slot
    ensures Agrees(t, Act(m, c))
  {
    hide Linked, View, At, Rows, Like, Faithful, ScrolledUp, ScrolledDown, Same;
    ghost var v := t.Cells();
    if c.CScroll? {
      t.Scroll();
      ScrollUpSame(v, m.g, m.top, m.bottom, t.cols, Drawn(SPACE, m.pen));
      SameTrans(t.Cells(), ScrolledUp(v, m.top, m.bottom, t.cols, Drawn(SPACE, m.pen)), Act(m, c).g);
    } else {
      t.RevScroll();
      ScrollDownSame(v, m.g, m.top, m.bottom, t.cols, Drawn(SPACE, m.pen));
      SameTrans(t.Cells(), ScrolledDown(v, m.top, m.bottom, t.cols, Drawn(SPACE, m.pen)), Act(m, c).g);
    }
  }

  method StepMove(t: Terminal, c: Command, ghost m: Plain)
    requires Proper(m) && Agrees(t, m) && c.CMove?
    modifies t, t.queue, t.slot
    ensures Agrees(t, Act(m, c))
  {
    hide Linked, View, At, Rows, Like, Faithful, Pushed, Same;
    ghost var v := t.Cells();
    t.MoveCharacter(c.newX, c.newY, c.x, c.y);
    if c.x < t.cols && c.y < t.rows && c.newX < t.cols && c.newY < t.rows {
      AtBounds(c.x, c.y, t.cols, t.rows);
      MoveSame(v, t.Cells(), m.g, At(c.newX, c.newY, t.cols), At(c.x, c.y, t.cols));
    }
  }

  method StepPut(t: Terminal, ch: nat, ghost m: Plain)
    requires Proper(m) && Agrees(t, m)
    modifies t, t.queue, t.slot
    ensures Agrees(t, Act(m, CPut(ch)))
  {
    hide Linked, View, At, Rows, Like, Faithful, ScrolledUp, Same;
    ghost var v := t.Cells();
    t.RawPutchar(ch);
    ghost var p := Landing(m.x, m.y, m.bottom, t.rows, t.cols, m.wrap, m.scroll);
    WrittenSame(v, m.g, p, m.top, m.bottom, t.cols, Drawn(SPACE, m.pen), Drawn(ch, m.pen));
    SameTrans(t.Cells(), Written(v, p, m.top, m.bottom, t.cols, Drawn(SPACE, m.pen), Drawn(ch, m.pen)),
      Act(m, CPut(ch)).g);
  }

  method StepFlush(t: Terminal, ghost m: Plain)
    requires Proper(m) && Agrees(t, m)
    modifies t, t.grid, t.slot
    ensures Agrees(t, m) && Same(t.shown, Visible(m))
  {
    hide Linked, View, At, Rows, Like, WithCursor, Same, Redrawn;
    CursorSame(t.Cells(), m.g, if m.cursor then Spot(m.x, m.y, t.rows, t.cols) else NONE);
    t.Flush();
  }

  /** Any run of commands: the view is the plain grid that the same commands make, so a
      flush at the end shows it, with the cursor inverted. */
  method Run(t: Terminal, cmds: seq<Command>, ghost m: Plain)
    requires Proper(m) && Agrees(t, m) && forall i :: 0 <= i < |cmds| ==> Sensible(cmds[i], m.rows)
    modifies t, t.grid, t.queue, t.slot
    ensures Agrees(t, ActAll(m, cmds))
    ensures var r := ActAll(m, cmds);
      cmds != [] && cmds[|cmds| - 1].CFlush? ==> Same(t.shown, Visible(r))
  {
    hide Agrees, Proper, Act, Same, Visible;
    ghost var r := m;
    assert cmds[..0] == [];
    for i := 0 to |cmds|
      invariant Proper(r) && r.rows == m.rows && r == ActAll(m, cmds[..i]) && Agrees(t, r)
      invariant 0 < i && cmds[i - 1].CFlush? ==> Same(t.shown, Visible(r))
    {
      assert cmds[..i + 1][..i] == cmds[..i];
      Step(t, cmds[i], r);
      FlushKeeps(r, cmds[i]);
      r := Act(r, cmds[i]);
    }
    assert cmds[..|cmds|] == cmds;
  }

  lemma {:induction false} FlushKeeps(m: Plain, c: Command)
    requires Proper(m) && Sensible(c, m.rows)
    ensures c.CFlush? ==> Act(m, c) == m
    ensures Proper(Act(m, c)) && Act(m, c).rows == m.rows
  {
  }

  lemma {:induction false} WrittenSame(v: Grid, w: Grid, p: Spotted, top: nat, bottom: nat, cols: nat, blank: Cell,
      c: Cell)
    requires Same(v, w) && top < bottom && Rows(bottom - 1, cols) + cols <= |v| && At(p.x, p.y, cols) < |v|
    ensures |w| == |v| && Same(Written(v, p, top, bottom, cols, blank, c), Written(w, p, top, bottom, cols, blank, c))
  {
    ScrollUpSame(v, w, top, bottom, cols, blank);
    hide ScrolledUp, Rows, At;
  }

  lemma {:induction false} ClearSame(v: Grid, w: Grid, blank: Cell)
    requires Same(v, w)
    ensures Cleared(v, blank) == Cleared(w, blank)
  {
  }

  lemma {:induction false} MoveSame(v: Grid, v': Grid, w: Grid, to: nat, from: nat)
    requires Same(v, w) && from < |v| && Pushed(v, v', to, v[from])
    ensures from < |w| && to < |w| && Same(v', w[to := w[from]])
  {
  }

  lemma {:induction false} CursorSame(v: Grid, w: Grid, spot: int)
    requires Same(v, w)
    ensures Same(WithCursor(v, spot), WithCursor(w, spot))
  {
  }

  // ----- a flush after a full refresh -----

  /** A flush of a screen that a full refresh drew with its cursor at c. The drawing calls in
      between change neither the grid nor the screen, and the flush does not know c. So the
      screen is right afterwards exactly if that cursor is drawn over or cannot be seen. */
  method FlushRefreshed(t: Terminal, ghost c: int)
    requires t.Core() && t.shown == WithCursor(t.grid[..], c) && (c == NONE || 0 <= c < t.grid.Length)
    modifies t.grid, t.slot, t`queueI, t`shown, t`oldX, t`oldY
    ensures t.Core() && t.grid[..] == old(t.Cells())
    ensures Redrawn(t.grid[..], old(t.slot[..]), old(t.shown), t.shown, t.CursorSpot(),
      old(Spot(t.oldX, t.oldY, t.rows, t.cols)))
    ensures t.shown == WithCursor(t.grid[..], t.CursorSpot()) <==>
      || c == NONE || c == t.CursorSpot() || c == old(Spot(t.oldX, t.oldY, t.rows, t.cols))
      || old(t.slot[..])[c] != NONE || AloneInverted(old(t.grid[..]), c)
  {
    hide Linked, Rows, At, View, WithCursor, Redrawn, AloneInverted, Faithful;
    ghost var v, was := t.Cells(), Spot(t.oldX, t.oldY, t.rows, t.cols);
    LinkedLengths(t.queue[..], t.slot[..], t.queueI, t.rows, t.cols);
    WithCursorLength(t.grid[..], c);
    t.Flush();
    StaleExact(old(t.grid[..]), old(t.queue[..]), old(t.slot[..]), t.rows, t.cols, old(t.queueI), v, t.shown,
      t.CursorSpot(), was, c);
  }

  lemma {:induction false} WithCursorLength(g: Grid, c: int)
    ensures |WithCursor(g, c)| == |g|
  {
  }

  /** A full refresh, a cursor movement and a flush. */
  method RefreshMoveFlush(t: Terminal, x: nat, y: nat)
    requires t.Valid() && t.queueI == 0
    modifies t.grid, t.slot, t`cursorX, t`cursorY, t`queueI, t`shown, t`oldX, t`oldY
    ensures t.Core() && t.grid[..] == old(t.grid[..])
    ensures t.shown == WithCursor(t.grid[..], t.CursorSpot()) <==>
      var c := old(t.CursorSpot());
      || c == NONE || c == t.CursorSpot() || c == old(Spot(t.oldX, t.oldY, t.rows, t.cols))
      || AloneInverted(t.grid[..], c)
  {
    hide Rows, At, WithCursor, AloneInverted, Faithful;
    ghost var c := t.CursorSpot();
    assert t.Cells() == t.grid[..];
    assert forall p :: 0 <= p < t.slot.Length ==> t.slot[..][p] == NONE;
    t.FullRefresh();
    SpotOnScreen(t.cursorX, t.cursorY, t.rows, t.cols);
    t.SetCursorPos(x, y);
    FlushRefreshed(t, c);
  }

  lemma {:induction false} SpotOnScreen(x: nat, y: nat, rows: nat, cols: nat)
    ensures Spot(x, y, rows, cols) == NONE || 0 <= Spot(x, y, rows, cols) < Rows(rows, cols)
  {
    if x < cols && y < rows {
      AtBounds(x, y, cols, rows);
    }
  }

  /** Two cells, white on black, with the cursor on the second: after a full refresh, a
      movement to the first and a flush, both cells are inverted. */
  method StaleCursor() returns (t: Terminal)
    ensures fresh(t) && t.Core() && t.CursorSpot() == 0 && |t.shown| == 2 == t.grid.Length
    ensures t.shown[1] == Inverted(t.grid[1]) != t.grid[1]
    ensures t.shown != WithCursor(t.grid[..], t.CursorSpot())
  {
    t := new Terminal(1, 2, Pen(1, 0, false, false), true);
    t.SetCursorPos(1, 0);
    assert At(1, 0, 2) == 1 && At(0, 0, 2) == 0 && Rows(1, 2) == 2;
    assert t.grid[..][1] == t.Cells()[1];
    t.FullRefresh();
    t.SetCursorPos(0, 0);
    ghost var g := t.grid[..];
    FlushRefreshed(t, 1);
    assert t.grid[..][1] == g[1];
  }
}
