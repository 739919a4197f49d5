/** Character cells and the plain grid: what the operations of the terminal mean. */
module TermGrid {
  import opened RowMajor

  // ----- cells -----

  datatype Cell = Cell(c: nat, fg: nat, bg: nat, fgDefault: bool, bgDefault: bool)

  /** `compare_char` */
  predicate Like(a: Cell, b: Cell)
  {
    && a.c == b.c && a.fgDefault == b.fgDefault && a.bgDefault == b.bgDefault
    && (a.fgDefault || a.fg == b.fg) && (a.bgDefault || a.bg == b.bg)
  }

  /** The cursor cell: colours exchanged. */
  function Inverted(a: Cell): Cell { Cell(a.c, a.bg, a.fg, a.bgDefault, a.fgDefault) }

  /** The pixel that `plot_char` draws where the glyph has ink or not, over a background
      pixel under. */
  function Pixel(a: Cell, font: (nat, nat) -> bool, dot: nat, under: nat): nat
  {
    if font(a.c, dot) then (if a.fgDefault then under else a.fg) else (if a.bgDefault then under else a.bg)
  }

  /** Cells that compare equal are drawn with the same pixels, as cursor cells too. */
  lemma {:induction false} LikeDraws(a: Cell, b: Cell, font: (nat, nat) -> bool, dot: nat, under: nat)
    requires Like(a, b)
    ensures Pixel(a, font, dot, under) == Pixel(b, font, dot, under)
    ensures Pixel(Inverted(a), font, dot, under) == Pixel(Inverted(b), font, dot, under)
  {
    assert Inverted(a).c == Inverted(b).c;
  }

  // ----- the plain grid -----

  type Grid = seq<Cell>

  /** The same picture. */
  ghost predicate Same(v: Grid, w: Grid)
  {
    |v| == |w| && forall j {:trigger v[j]} {:trigger w[j]} :: 0 <= j < |v| ==> Like(v[j], w[j])
  }

  lemma {:induction false} SameTrans(u: Grid, v: Grid, w: Grid)
    requires Same(u, v) && Same(v, w)
    ensures Same(u, w)
  {
    forall j {:trigger u[j]} {:trigger w[j]} | 0 <= j < |u| ensures Like(u[j], w[j]) {
      assert Like(u[j], v[j]);
    }
  }

  /** Rows top to bottom - 1 move up by one and row bottom - 1 is blank. */
  function ScrolledUp(g: Grid, top: nat, bottom: nat, cols: nat, blank: Cell): (r: Grid)
    requires top < bottom && Rows(bottom - 1, cols) + cols <= |g|
    ensures |r| == |g|
  {
    seq(|g|, j requires 0 <= j < |g| =>
      if Rows(top, cols) <= j < Rows(bottom - 1, cols) then g[j + cols]
      else if Rows(bottom - 1, cols) <= j < Rows(bottom - 1, cols) + cols then blank
      else g[j])
  }

  /** Rows top to bottom - 1 move down by one and row top is blank. */
  function ScrolledDown(g: Grid, top: nat, bottom: nat, cols: nat, blank: Cell): (r: Grid)
    requires top < bottom && Rows(bottom - 1, cols) + cols <= |g| && Rows(top, cols) <= Rows(bottom - 1, cols)
    ensures |r| == |g|
  {
    seq(|g|, j requires 0 <= j < |g| =>
      if Rows(top, cols) <= j < Rows(top, cols) + cols then blank
      else if Rows(top, cols) + cols <= j < Rows(bottom - 1, cols) + cols then g[j - cols]
      else g[j])
  }

  function Cleared(g: Grid, blank: Cell): (r: Grid)
    ensures |r| == |g|
  {
    seq(|g|, j => blank)
  }

  lemma {:induction false} ScrollUpSame(v: Grid, w: Grid, top: nat, bottom: nat, cols: nat, blank: Cell)
    requires Same(v, w) && top < bottom && Rows(bottom - 1, cols) + cols <= |v|
    ensures Same(ScrolledUp(v, top, bottom, cols, blank), ScrolledUp(w, top, bottom, cols, blank))
  {
  }

  lemma {:induction false} ScrollDownSame(v: Grid, w: Grid, top: nat, bottom: nat, cols: nat, blank: Cell)
    requires Same(v, w) && top < bottom && Rows(bottom - 1, cols) + cols <= |v|
      && Rows(top, cols) <= Rows(bottom - 1, cols)
    ensures Same(ScrolledDown(v, top, bottom, cols, blank), ScrolledDown(w, top, bottom, cols, blank))
  {
  }

  lemma {:induction false} PutSame(v: Grid, w: Grid, i: nat, a: Cell, b: Cell)
    requires Same(v, w) && i < |v| && Like(a, b)
    ensures Same(v[i := a], w[i := b])
  {
  }
}
