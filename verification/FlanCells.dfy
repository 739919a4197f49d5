/** What the operations on the plain terminal do, cell by cell. */
module FlanCells {
  import opened RowMajor
  import opened TermGrid
  import opened Term
  import opened TermTheorems
  import opened FlanEdit
  import opened FlanScreen
  import FlanSpec

  /** The cell in column x of line y. */
  function CellAt(m: Plain, x: nat, y: nat): Cell
    requires Proper(m) && x < m.cols && y < m.rows
  {
    AtBounds(x, y, m.cols, m.rows);
    m.g[At(x, y, m.cols)]
  }

  /** Rows as distances: n lines further down. */
  lemma {:induction false} LinesOn(x: nat, y: nat, n: nat, cols: nat)
    ensures At(x, y + n, cols) == At(x, y, cols) + Rows(n, cols)
  {
    RowsPlus(y, n, cols);
  }

  /** A cell is before row b exactly if its line is. */
  lemma {:induction false} LineBefore(x: nat, y: nat, b: nat, cols: nat)
    requires x < cols
    ensures At(x, y, cols) < Rows(b, cols) <==> y < b
  {
    if y < b {
      RowsMonotone(y, b, cols);
    } else {
      RowsMonotone(b, y, cols);
    }
  }

  // ----- scrolling -----

  lemma {:induction false} RolledUp(m: Plain, x: nat, y: nat)
    requires Proper(m) && x < m.cols && y < m.rows
    ensures CellAt(Rolled(m, true), x, y) ==
      if m.top <= y < m.bottom - 1 then CellAt(m, x, y + 1)
      else if y == m.bottom - 1 then Drawn(SPACE, m.pen) else CellAt(m, x, y)
  {
    hide Rows, At, Fits;
    LineBefore(x, y, m.top, m.cols);
    LineBefore(x, y, m.bottom - 1, m.cols);
    LineBefore(x, y, m.bottom, m.cols);
    RowsNext(m.bottom - 1, m.cols);
    LinesOn(x, y, 1, m.cols);
    RowsOne(m.cols);
    AtBounds(x, y, m.cols, m.rows);
    if y + 1 < m.rows {
      AtBounds(x, y + 1, m.cols, m.rows);
    }
  }

  lemma {:induction false} RolledDown(m: Plain, x: nat, y: nat)
    requires Proper(m) && x < m.cols && y < m.rows
    ensures CellAt(Rolled(m, false), x, y) ==
      if m.top < y < m.bottom then CellAt(m, x, y - 1)
      else if y == m.top then Drawn(SPACE, m.pen) else CellAt(m, x, y)
  {
    hide Rows, At, Fits;
    LineBefore(x, y, m.top, m.cols);
    LineBefore(x, y, m.top + 1, m.cols);
    LineBefore(x, y, m.bottom, m.cols);
    RowsNext(m.top, m.cols);
    RowsNext(m.bottom - 1, m.cols);
    RowsOne(m.cols);
    AtBounds(x, y, m.cols, m.rows);
    if y > 0 {
      LinesOn(x, y - 1, 1, m.cols);
      AtBounds(x, y - 1, m.cols, m.rows);
    }
  }

  // ----- whole lines -----

  lemma {:induction false} DeletedLines(m: Plain, from: nat, n: nat, x: nat, y: nat)
    requires Proper(m) && from + n <= m.bottom && x < m.cols && y < m.rows
    ensures CellAt(LinesDeleted(m, from, n), x, y) ==
      if from <= y && y + n < m.bottom then CellAt(m, x, y + n)
      else if from <= y < m.bottom then Drawn(SPACE, m.pen) else CellAt(m, x, y)
  {
    hide Rows, At, Fits;
    RegionFits(n, from, m.bottom, m.rows, m.cols);
    LineBefore(x, y, from, m.cols);
    LineBefore(x, y, m.bottom, m.cols);
    LineBefore(x, y + n, m.bottom, m.cols);
    LinesOn(x, y, n, m.cols);
    AtBounds(x, y, m.cols, m.rows);
    DeletedAt(m.g, Rows(from, m.cols), Rows(m.bottom, m.cols), Rows(n, m.cols), Drawn(SPACE, m.pen), At(x, y, m.cols));
  }

  lemma {:induction false} InsertedLines(m: Plain, from: nat, n: nat, x: nat, y: nat)
    requires Proper(m) && from + n <= m.bottom && x < m.cols && y < m.rows
    ensures CellAt(LinesInserted(m, from, n), x, y) ==
      if from <= y < from + n then Drawn(SPACE, m.pen)
      else if from + n <= y < m.bottom then CellAt(m, x, y - n) else CellAt(m, x, y)
  {
    hide Rows, At, Fits;
    RegionFits(n, from, m.bottom, m.rows, m.cols);
    LineBefore(x, y, from, m.cols);
    LineBefore(x, y, m.bottom, m.cols);
    LineBefore(x, y, from + n, m.cols);
    RowsPlus(from, n, m.cols);
    AtBounds(x, y, m.cols, m.rows);
    InsertedAt(m.g, Rows(from, m.cols), Rows(m.bottom, m.cols), Rows(n, m.cols), Drawn(SPACE, m.pen), At(x, y, m.cols));
    if from + n <= y < m.bottom {
      LinesOn(x, y - n, n, m.cols);
    }
  }

  lemma {:induction false} DeletedAt(g: Grid, lo: nat, hi: nat, n: nat, blank: Cell, j: nat)
    requires lo + n <= hi <= |g| && j < |g|
    ensures Deleted(g, lo, hi, n, blank)[j] ==
      if lo <= j && j + n < hi then g[j + n] else if lo <= j < hi then blank else g[j]
  {
  }

  lemma {:induction false} InsertedAt(g: Grid, lo: nat, hi: nat, n: nat, blank: Cell, j: nat)
    requires lo + n <= hi <= |g| && j < |g|
    ensures Inserted(g, lo, hi, n, blank)[j] ==
      if lo <= j < lo + n then blank else if lo + n <= j < hi then g[j - n] else g[j]
  {
  }

  lemma {:induction false} ErasedAt(g: Grid, lo: nat, n: nat, blank: Cell, j: nat)
    requires lo + n <= |g| && j < |g|
    ensures Erased(g, lo, n, blank)[j] == if lo <= j < lo + n then blank else g[j]
  {
  }

  // ----- parts of a line -----

  /** How cells of a line lie to a stretch of it. */
  lemma {:induction false} OnLine(m: Plain, x: nat, y: nat, x0: nat, y0: nat)
    requires Proper(m) && x < m.cols && y < m.rows && x0 <= m.cols && y0 < m.rows
    ensures y < y0 ==> At(x, y, m.cols) < Rows(y0, m.cols)
    ensures y > y0 ==> At(x, y, m.cols) >= Rows(y0, m.cols) + m.cols
    ensures y == y0 ==> At(x, y, m.cols) == Rows(y0, m.cols) + x
    ensures At(x0, y0, m.cols) == Rows(y0, m.cols) + x0 && Rows(y0 + 1, m.cols) == Rows(y0, m.cols) + m.cols <= |m.g|
    ensures At(x, y, m.cols) < |m.g|
  {
    RowsNext(y0, m.cols);
    RowsMonotone(y0 + 1, m.rows, m.cols);
    AtBounds(x, y, m.cols, m.rows);
    if y < y0 {
      RowsMonotone(y, y0, m.cols);
    } else if y > y0 {
      RowsMonotone(y0, y, m.cols);
    }
  }

  lemma {:induction false} InsertedChars(m: Plain, n: nat, x0: nat, y0: nat, x: nat, y: nat)
    requires Proper(m) && x0 < m.cols && y0 < m.rows && x < m.cols && y < m.rows && n > 0
    ensures CellAt(CharsInserted(m, n, x0, y0), x, y) ==
      if y != y0 || x < x0 then CellAt(m, x, y) else if x < x0 + n then Drawn(SPACE, m.pen) else CellAt(m, x - n, y)
  {
    hide Rows, At, Fits;
    RowInside(m, x0, y0, Room(m, n, x0));
    OnLine(m, x, y, x0, y0);
    if y == y0 && x >= x0 + n {
      OnLine(m, x - n, y, x0, y0);
    }
    InsertedAt(m.g, At(x0, y0, m.cols), Rows(y0 + 1, m.cols), Room(m, n, x0), Drawn(SPACE, m.pen), At(x, y, m.cols));
  }

  lemma {:induction false} DeletedChars(m: Plain, n: nat, x0: nat, y0: nat, x: nat, y: nat)
    requires Proper(m) && x0 < m.cols && y0 < m.rows && x < m.cols && y < m.rows
    ensures CellAt(CharsDeleted(m, n, x0, y0), x, y) ==
      if y != y0 || x < x0 then CellAt(m, x, y) else if x + n < m.cols then CellAt(m, x + n, y) else Drawn(SPACE, m.pen)
  {
    hide Rows, At, Fits;
    RowInside(m, x0, y0, Room(m, n, x0));
    OnLine(m, x, y, x0, y0);
    if y == y0 && x + n < m.cols {
      OnLine(m, x + n, y, x0, y0);
    }
    DeletedAt(m.g, At(x0, y0, m.cols), Rows(y0 + 1, m.cols), Room(m, n, x0), Drawn(SPACE, m.pen), At(x, y, m.cols));
  }

  lemma {:induction false} ErasedChars(m: Plain, n: nat, x0: nat, y0: nat, x: nat, y: nat)
    requires Proper(m) && x0 < m.cols && y0 < m.rows && x < m.cols && y < m.rows
    ensures CellAt(CharsErased(m, n, x0, y0), x, y) ==
      if y == y0 && x0 <= x < x0 + n then Drawn(SPACE, m.pen) else CellAt(m, x, y)
  {
    hide Rows, At, Fits;
    RowInside(m, x0, y0, Room(m, n, x0));
    OnLine(m, x, y, x0, y0);
    ErasedAt(m.g, At(x0, y0, m.cols), Room(m, n, x0), Drawn(SPACE, m.pen), At(x, y, m.cols));
  }

  /** Erase in line: from the cursor on, up to it, or all of it. */
  lemma {:induction false} LineBlank(m: Plain, mode: nat, x0: nat, y0: nat, x: nat, y: nat)
    requires Proper(m) && x0 < m.cols && y0 < m.rows && x < m.cols && y < m.rows && mode <= 2
    ensures CellAt(LineErased(m, mode, x0, y0), x, y) ==
      if y == y0 && (mode == 0 ==> x0 <= x) && (mode == 1 ==> x <= x0) then Drawn(SPACE, m.pen) else CellAt(m, x, y)
  {
    hide Rows, At, Fits;
    RowInside(m, x0, y0, m.cols - x0);
    RowInside(m, 0, y0, m.cols);
    OnLine(m, x, y, x0, y0);
    var w := LineRegion(mode, x0, y0, m.cols);
    ErasedAt(m.g, w.0, w.1, Drawn(SPACE, m.pen), At(x, y, m.cols));
  }

  /** Erase in page: from the cursor on, up to it, or all of it. */
  lemma {:induction false} PageBlank(m: Plain, mode: nat, x0: nat, y0: nat, x: nat, y: nat)
    requires Proper(m) && x0 < m.cols && y0 < m.rows && x < m.cols && y < m.rows && mode <= 3
    ensures CellAt(PageErased(m, mode, x0, y0), x, y) ==
      if (mode == 0 ==> y0 < y || (y0 == y && x0 <= x)) && (mode == 1 ==> y < y0 || (y0 == y && x <= x0))
      then Drawn(SPACE, m.pen) else CellAt(m, x, y)
  {
    hide Rows, At, Fits;
    AtBounds(x0, y0, m.cols, m.rows);
    OnLine(m, x, y, x0, y0);
    var w := PageRegion(mode, x0, y0, m.rows, m.cols);
    ErasedAt(m.g, w.0, w.1, Drawn(SPACE, m.pen), At(x, y, m.cols));
  }

  // ----- typing -----

  /** A character on a line with room is at the cursor, which moves on; nothing else
      changes. */
  lemma {:induction false} TypedCell(m: Plain, ch: nat, x: nat, y: nat)
    requires Proper(m) && m.x < m.cols && x < m.cols && y < m.rows
    ensures CellAt(Typed(m, ch), x, y) == if x == m.x && y == m.y then Drawn(ch, m.pen) else CellAt(m, x, y)
    ensures Typed(m, ch) == m.(g := Typed(m, ch).g, x := m.x + 1)
  {
    AtBounds(x, y, m.cols, m.rows);
    AtBounds(m.x, m.y, m.cols, m.rows);
    if At(x, y, m.cols) == At(m.x, m.y, m.cols) {
      AtUnique(x, y, m.x, m.y, m.cols);
    }
  }

  /** On a full line it goes to the start of the next one, which at the bottom margin is the
      same after scrolling. Without wrapping, or at or below the bottom margin with
      scrolling off, it goes over the last cell. */
  lemma {:induction false} TypedFull(m: Plain, ch: nat)
    requires Proper(m) && m.x == m.cols
    ensures !m.wrap || (!m.scroll && m.y >= m.bottom - 1) ==> Typed(m, ch) == Typed(m.(x := m.cols - 1), ch)
    ensures m.wrap && m.scroll && m.y == m.bottom - 1 ==> Typed(m, ch) == Typed(Rolled(m, true).(x := 0), ch)
    ensures m.wrap && m.y != m.bottom - 1 && m.y < m.rows - 1 && (m.y < m.bottom - 1 || m.scroll) ==>
      Typed(m, ch) == Typed(m.(x := 0, y := m.y + 1), ch)
    ensures m.wrap && m.scroll && m.y != m.bottom - 1 && m.y == m.rows - 1 ==> Typed(m, ch) == Typed(m.(x := 0), ch)
  {
    hide Rows, Fits;
    AtBounds(0, m.y, m.cols, m.rows);
    AtBounds(m.cols - 1, m.y, m.cols, m.rows);
  }

  /** n cells of room at the cursor: those from it on move right within their line. */
  lemma {:induction false} SpreadCell(m: Plain, n: nat, x: nat, y: nat)
    requires Proper(m) && x < m.cols && y < m.rows
    ensures CellAt(Spread(m, n), x, y) == if y == m.y && Column(m) + n <= x then CellAt(m, x - n, y)
      else CellAt(m, x, y)
  {
    hide Rows, At, Fits, Slid;
    RowInside(m, Column(m), m.y, Room(m, n, Column(m)));
    OnLine(m, x, y, Column(m), m.y);
    if y == m.y && Column(m) + n <= x {
      OnLine(m, x - n, y, Column(m), m.y);
    }
    SlidAt(m.g, At(Column(m), m.y, m.cols), Rows(m.y + 1, m.cols), Room(m, n, Column(m)), At(x, y, m.cols));
  }

  lemma {:induction false} SlidAt(g: Grid, lo: nat, hi: nat, n: nat, j: nat)
    requires lo + n <= hi <= |g| && j < |g|
    ensures Slid(g, lo, hi, n)[j] == if lo + n <= j < hi then g[j - n] else g[j]
  {
  }

  /** n spaces on a line with room. */
  lemma {:induction false} SpacesCell(m: Plain, n: nat, x: nat, y: nat)
    requires Proper(m) && m.x + n <= m.cols && x < m.cols && y < m.rows
    ensures var r := FlanSpec.Spaces(m, n);
      && r == m.(g := r.g, x := m.x + n)
      && CellAt(r, x, y) == if y == m.y && m.x <= x < m.x + n then Drawn(SPACE, m.pen) else CellAt(m, x, y)
  {
    hide Rows, At, Fits, Proper, CellAt, Typed;
    if n > 0 {
      SpacesCell(m, n - 1, x, y);
      TypedCell(FlanSpec.Spaces(m, n - 1), SPACE, x, y);
    }
  }

  lemma {:induction false} WipedCell(m: Plain, move: bool, x: nat, y: nat)
    requires Proper(m) && x < m.cols && y < m.rows
    ensures CellAt(Wiped(m, move), x, y) == Drawn(SPACE, m.pen)
  {
    AtBounds(x, y, m.cols, m.rows);
  }
}
