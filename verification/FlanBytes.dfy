/** What the byte sequences of the terminal's language do, told by the cursor and by cells. */
module FlanBytes {
  import opened RowMajor
  import opened TermGrid
  import opened Term
  import opened TermTheorems
  import opened FlanScreen
  import opened FlanCells
  import opened FlanSpec
  import opened FlanTheorems
  import Flanterm
  import Utf8

  /** Between sequences. */
  ghost predicate Idle(T: Tables, s: State) { TablesOk(T) && StateOk(s) && Ground(s.p) && !s.p.mode.dec }

  /** `ESC [`, numbers with semicolons between them, and a final byte. */
  function Csi(vs: seq<nat>, c: Octet): seq<Octet> { [0x1B, 0x5B] + Listed(vs) + [c] }

  /** Numbers that the parser reads as they are. */
  predicate Small(vs: seq<nat>) { |vs| <= MAX_VALUES && forall i :: 0 <= i < |vs| ==> vs[i] <= 0xFFFF_FFFF }

  lemma {:induction false} Sent(T: Tables, s: State, vs: seq<nat>, c: Octet)
    requires Idle(T, s) && FinalByte(c) && (vs == [] ==> c != 0x5B)
    ensures var r := FedAll(T, s, Csi(vs, c));
      Idle(T, r) && r.f == Performed(T, s.f, c, Given(vs, c).values, Given(vs, c).n)
  {
    hide FaceOk, ParserOk, FedAll, Performed, Given, Listed, Ground;
    ControlRead(T, s, vs, c);
  }

  /** A number, with 1 in place of none and of zero. */
  function Count(vs: seq<nat>, i: nat): nat { if i < |vs| && vs[i] > 0 then vs[i] else 1 }

  /** A number, with 0 in place of none. */
  function Choice(vs: seq<nat>, i: nat): nat { if i < |vs| then vs[i] else 0 }

  lemma {:induction false} CountIs(vs: seq<nat>, c: nat, i: nat)
    requires Small(vs) && i < MAX_VALUES
    ensures Given(vs, c).n == |vs|
    ensures Given(vs, c).values[i] == if ZeroDefault(c) then Choice(vs, i) else Count(vs, i)
  {
    hide Given;
    GivenExact(vs, c, i);
  }

  // ----- the cursor -----

  /** Only the cursor has moved. */
  ghost predicate OnlyCursor(f: Face, r: Face) { r == f.(m := f.m.(x := r.m.x, y := r.m.y)) }

  /** The first line that the cursor may go to, and the line after the last. */
  function First(f: Face): nat { if f.look.origin then f.m.top else 0 }

  function Beyond(f: Face): nat { if f.look.origin then f.m.bottom else f.m.rows }

  /** `CSI r ; c H`: row r and column c of the screen, both counted from 1; in origin mode
      row r of the region between the margins. What is too far goes to the last. */
  lemma {:induction false} CursorPosition(T: Tables, s: State, vs: seq<nat>, c: Octet)
    requires Idle(T, s) && Small(vs) && c in [0x48, 0x66]
    ensures var f, r, row, col := s.f, FedAll(T, s, Csi(vs, c)).f, Count(vs, 0), Count(vs, 1);
      && OnlyCursor(f, r)
      && (col <= f.m.cols ==> r.m.x == col - 1) && (col > f.m.cols ==> r.m.x == f.m.cols - 1)
      && (!f.look.origin && row <= f.m.rows ==> r.m.y == row - 1)
      && (!f.look.origin && row > f.m.rows ==> r.m.y == f.m.rows - 1)
      && (f.look.origin && row <= f.m.bottom - f.m.top ==> r.m.y == f.m.top + row - 1)
      && (f.look.origin && row > f.m.bottom - f.m.top ==> r.m.y == f.m.bottom - 1)
  {
    hide FedAll, Given, Idle, Small, Count, Ground, ParserOk, LookFits, Rows, Fits;
    Sent(T, s, vs, c);
    CountIs(vs, c, 0);
    CountIs(vs, c, 1);
    IdleFace(T, s);
    CountPositive(vs, 0);
    CountPositive(vs, 1);
  }

  lemma {:induction false} IdleFace(T: Tables, s: State)
    requires Idle(T, s)
    ensures FaceOk(s.f) && TablesOk(T) && StateOk(s) && Ground(s.p) && !s.p.mode.dec
  {
  }

  lemma {:induction false} CountPositive(vs: seq<nat>, i: nat)
    ensures Count(vs, i) >= 1
  {
  }

  /** The instance that every program writes. */
  lemma {:induction false} CursorAt(T: Tables, s: State, row: nat, col: nat)
    requires Idle(T, s) && !s.f.look.origin && 1 <= row <= s.f.m.rows <= 0xFFFF_FFFF
      && 1 <= col <= s.f.m.cols <= 0xFFFF_FFFF
    ensures var m := FedAll(T, s, [0x1B, 0x5B] + Decimal(row) + [0x3B] + Decimal(col) + [0x48]).f.m;
      m.x == col - 1 && m.y == row - 1 && m.g == s.f.m.g && m.pen == s.f.m.pen
  {
    hide FedAll, Given, Idle, Ground, Rows, Fits, Decimal;
    CursorPosition(T, s, [row, col], 0x48);
    ListedTwo(row, col);
    assert Csi([row, col], 0x48) == [0x1B, 0x5B] + Decimal(row) + [0x3B] + Decimal(col) + [0x48];
  }

  lemma {:induction false} ListedTwo(a: nat, b: nat)
    ensures Listed([a, b]) == Decimal(a) + [0x3B] + Decimal(b)
  {
    hide Decimal;
    assert [a, b][..1] == [a];
    assert Listed([a]) == Decimal(a);
  }

  /** Up by n lines, as far as the first: `A`, and `F` to the start of the line. */
  lemma {:induction false} CursorUp(T: Tables, s: State, vs: seq<nat>, c: Octet)
    requires Idle(T, s) && Small(vs) && c in [0x41, 0x46]
    ensures var f, r, n := s.f, FedAll(T, s, Csi(vs, c)).f, Count(vs, 0);
      && OnlyCursor(f, r) && r.m.x == (if c == 0x46 then 0 else Column(f.m))
      && (First(f) + n <= f.m.y ==> r.m.y + n == f.m.y) && (f.m.y < First(f) + n ==> r.m.y == First(f))
  {
    hide FedAll, Given, Idle, Small, Count, Ground, ParserOk, LookFits, Rows, Fits;
    Sent(T, s, vs, c);
    CountIs(vs, c, 0);
    IdleFace(T, s);
  }

  /** Down by n lines, as far as the last: `B` and `e`, and `E` to the start of the line. */
  lemma {:induction false} CursorDown(T: Tables, s: State, vs: seq<nat>, c: Octet)
    requires Idle(T, s) && Small(vs) && c in [0x42, 0x65, 0x45]
    ensures var f, r, n := s.f, FedAll(T, s, Csi(vs, c)).f, Count(vs, 0);
      && OnlyCursor(f, r) && r.m.x == (if c == 0x45 then 0 else Column(f.m))
      && (f.m.y + n < Beyond(f) ==> r.m.y == f.m.y + n) && (f.m.y + n >= Beyond(f) ==> r.m.y == Beyond(f) - 1)
  {
    hide FedAll, Given, Idle, Small, Count, Ground, ParserOk, LookFits, Rows, Fits;
    Sent(T, s, vs, c);
    CountIs(vs, c, 0);
    IdleFace(T, s);
  }

  /** Right by n columns, as far as the last: `C` and `a`. */
  lemma {:induction false} CursorRight(T: Tables, s: State, vs: seq<nat>, c: Octet)
    requires Idle(T, s) && Small(vs) && c in [0x43, 0x61]
    ensures var f, r, n := s.f, FedAll(T, s, Csi(vs, c)).f, Count(vs, 0);
      && OnlyCursor(f, r) && r.m.y == f.m.y
      && (Column(f.m) + n < f.m.cols ==> r.m.x == Column(f.m) + n)
      && (Column(f.m) + n >= f.m.cols ==> r.m.x == f.m.cols - 1)
  {
    hide FedAll, Given, Idle, Small, Count, Ground, ParserOk, LookFits, Rows, Fits;
    Sent(T, s, vs, c);
    CountIs(vs, c, 0);
    IdleFace(T, s);
  }

  /** Left by n columns, as far as the first: `D`. */
  lemma {:induction false} CursorLeft(T: Tables, s: State, vs: seq<nat>)
    requires Idle(T, s) && Small(vs)
    ensures var f, r, n := s.f, FedAll(T, s, Csi(vs, 0x44)).f, Count(vs, 0);
      && OnlyCursor(f, r) && r.m.y == f.m.y
      && (n <= Column(f.m) ==> r.m.x + n == Column(f.m)) && (n > Column(f.m) ==> r.m.x == 0)
  {
    hide FedAll, Given, Idle, Small, Count, Ground, ParserOk, LookFits, Rows, Fits;
    Sent(T, s, vs, 0x44);
    CountIs(vs, 0x44, 0);
    IdleFace(T, s);
  }

  /** To line n: `d`. */
  lemma {:induction false} CursorLine(T: Tables, s: State, vs: seq<nat>)
    requires Idle(T, s) && Small(vs)
    ensures var f, r, n := s.f, FedAll(T, s, Csi(vs, 0x64)).f, Count(vs, 0);
      && OnlyCursor(f, r) && r.m.x == Column(f.m)
      && (First(f) + n <= Beyond(f) ==> r.m.y == First(f) + n - 1)
      && (First(f) + n > Beyond(f) ==> r.m.y == Beyond(f) - 1)
  {
    hide FedAll, Given, Idle, Small, Count, Ground, ParserOk, LookFits, Rows, Fits;
    Sent(T, s, vs, 0x64);
    CountIs(vs, 0x64, 0);
    CountPositive(vs, 0);
    IdleFace(T, s);
  }

  /** To column n: `G` and `` ` ``. */
  lemma {:induction false} CursorColumn(T: Tables, s: State, vs: seq<nat>, c: Octet)
    requires Idle(T, s) && Small(vs) && c in [0x47, 0x60]
    ensures var f, r, n := s.f, FedAll(T, s, Csi(vs, c)).f, Count(vs, 0);
      && OnlyCursor(f, r) && r.m.y == f.m.y
      && (n <= f.m.cols ==> r.m.x == n - 1) && (n > f.m.cols ==> r.m.x == f.m.cols - 1)
  {
    hide FedAll, Given, Idle, Small, Count, Ground, ParserOk, LookFits, Rows, Fits;
    Sent(T, s, vs, c);
    CountIs(vs, c, 0);
    CountPositive(vs, 0);
    IdleFace(T, s);
  }

  /** `CSI s` notes the place of the cursor. */
  lemma {:induction false} CursorNoted(T: Tables, s: State)
    requires Idle(T, s)
    ensures FedAll(T, s, Csi([], 0x73)).f == s.f.(savedX := Column(s.f.m), savedY := s.f.m.y)
    ensures Idle(T, FedAll(T, s, Csi([], 0x73)))
  {
    hide FedAll, Given, Idle, Ground, ParserOk, LookFits, Rows, Fits;
    Sent(T, s, [], 0x73);
    IdleFace(T, s);
  }

  /** `CSI u` goes back there. */
  lemma {:induction false} CursorRecalled(T: Tables, s: State)
    requires Idle(T, s) && s.f.savedX < s.f.m.cols && s.f.savedY < s.f.m.rows
    ensures FedAll(T, s, Csi([], 0x75)).f == s.f.(m := s.f.m.(x := s.f.savedX, y := s.f.savedY))
  {
    hide FedAll, Given, Idle, Ground, ParserOk, LookFits, Rows, Fits;
    Sent(T, s, [], 0x75);
    IdleFace(T, s);
  }

  /** The place stays noted. */
  lemma {:induction false} PerformedNoted(T: Tables, f: Face, c: nat, vs: seq<Word>, n: nat)
    requires TablesOk(T) && FaceOk(f) && |vs| == MAX_VALUES && n <= MAX_VALUES && c != SCP
    ensures Performed(T, f, c, vs, n).savedX == f.savedX && Performed(T, f, c, vs, n).savedY == f.savedY
  {
    hide FaceOk, Proper, LookFits, Travelled, Edited, Lined, Painted, Unpainted, Put, Bounded, Repeated;
    if c == REP {
      RepeatedNoted(f, if vs[0] > f.m.cols then f.m.cols else vs[0]);
    }
  }

  lemma {:induction false} RepeatedNoted(f: Face, n: nat)
    requires FaceOk(f)
    ensures Repeated(f, n).savedX == f.savedX && Repeated(f, n).savedY == f.savedY
  {
    if n > 0 {
      RepeatedNoted(f, n - 1);
    }
  }

  lemma {:induction false} SeenNoted(T: Tables, f: Face, e: Utf8.Event)
    requires FaceOk(f)
    ensures Seen(T, f, e).savedX == f.savedX && Seen(T, f, e).savedY == f.savedY
  {
    hide FaceOk, Proper, LookFits, Typed, LineFed, Put;
  }

  /** Pieces other than `CSI s`. */
  predicate NotNoting(i: Item) { i.Sequence? ==> i.final != 0x73 }

  lemma {:induction false} NotedThrough(T: Tables, f: Face, items: seq<Item>)
    requires TablesOk(T) && FaceOk(f) && forall i :: 0 <= i < |items| ==> NotNoting(items[i])
    ensures MeaningAll(T, f, items).savedX == f.savedX && MeaningAll(T, f, items).savedY == f.savedY
  {
    hide FaceOk, Performed, Seen, Given;
    if items != [] {
      var t, last := items[..|items| - 1], items[|items| - 1];
      NotedThrough(T, f, t);
      var b := MeaningAll(T, f, t);
      match last
      case Letter(cp) => SeenNoted(T, b, Utf8.Shown(cp));
      case Sequence(vs, final) => PerformedNoted(T, b, final, Given(vs, final).values, Given(vs, final).n);
    }
  }

  /** Whatever is written between `CSI s` and `CSI u`, the cursor is back afterwards. */
  lemma {:induction false} NoteRecall(T: Tables, s: State, items: seq<Item>)
    requires Idle(T, s) && forall i :: 0 <= i < |items| ==> ItemOk(items[i]) && NotNoting(items[i])
    ensures var m := FedAll(T, s, Csi([], 0x73) + Stream(items) + Csi([], 0x75)).f.m;
      m.x == Column(s.f.m) && m.y == s.f.m.y
  {
    hide FaceOk, ParserOk, FedAll, Stream, MeaningAll, Ground, Csi, ItemOk, NotNoting;
    CursorNoted(T, s);
    IdleFace(T, s);
    var s1 := FedAll(T, s, Csi([], 0x73));
    StreamFed(T, s1, items);
    NotedThrough(T, s1.f, items);
    var s2 := FedAll(T, s1, Stream(items));
    FaceSize(s.f);
    CursorRecalled(T, s2);
    FedConcat(T, s, Csi([], 0x73), Stream(items));
    FedConcat(T, s, Csi([], 0x73) + Stream(items), Csi([], 0x75));
  }

  lemma {:induction false} FaceSize(f: Face)
    requires FaceOk(f)
    ensures Proper(f.m) && f.m.y < f.m.rows
  {
  }

  // ----- lines and cells -----

  /** All but the cells is as before. */
  ghost predicate OnlyCells(f: Face, r: Face) { |r.m.g| == |f.m.g| && r == f.(m := f.m.(g := r.m.g)) }

  /** Only cells and the cursor, which is in the column where a wrap was due at most. */
  ghost predicate CellsAndColumn(f: Face, r: Face)
    requires FaceOk(f)
  {
    |r.m.g| == |f.m.g| && r == f.(m := f.m.(g := r.m.g, x := Column(f.m)))
  }

  function Empty(f: Face): Cell { Drawn(SPACE, f.m.pen) }

  predicate InRegion(f: Face) { f.m.top <= f.m.y < f.m.bottom }

  /** `CSI n L` and `CSI n M`: inside the margins, n lines are inserted at the cursor or
      deleted there; the lines below, as far as the bottom margin, move. */
  lemma {:induction false} LinesAtCursor(T: Tables, s: State, vs: seq<nat>, c: Octet, x: nat, y: nat)
    requires Idle(T, s) && Small(vs) && c in [0x4C, 0x4D] && x < s.f.m.cols && y < s.f.m.rows
    ensures OnlyCells(s.f, FedAll(T, s, Csi(vs, c)).f)
    ensures var f, r, n := s.f, FedAll(T, s, Csi(vs, c)).f, Count(vs, 0);
      CellAt(r.m, x, y) ==
        if !InRegion(f) || y < f.m.y || y >= f.m.bottom then CellAt(f.m, x, y)
        else if c == 0x4C then (if y < f.m.y + n then Empty(f) else CellAt(f.m, x, y - n))
        else if y + n < f.m.bottom then CellAt(f.m, x, y + n) else Empty(f)
  {
    hide FedAll, Given, Idle, Small, Count, Ground, ParserOk, LookFits, Rows, Fits, CellAt, Proper, LinesDeleted,
      LinesInserted;
    Sent(T, s, vs, c);
    CountIs(vs, c, 0);
    IdleFace(T, s);
    LinedCells(s.f.m, c, Count(vs, 0), x, y);
  }

  /** `CSI n S` and `CSI n T`: the region between the margins moves up or down by n lines. */
  lemma {:induction false} RegionScrolls(T: Tables, s: State, vs: seq<nat>, c: Octet, x: nat, y: nat)
    requires Idle(T, s) && Small(vs) && c in [0x53, 0x54] && x < s.f.m.cols && y < s.f.m.rows
    ensures OnlyCells(s.f, FedAll(T, s, Csi(vs, c)).f)
    ensures var f, r, n := s.f, FedAll(T, s, Csi(vs, c)).f, Count(vs, 0);
      CellAt(r.m, x, y) ==
        if y < f.m.top || y >= f.m.bottom then CellAt(f.m, x, y)
        else if c == 0x54 then (if y < f.m.top + n then Empty(f) else CellAt(f.m, x, y - n))
        else if y + n < f.m.bottom then CellAt(f.m, x, y + n) else Empty(f)
  {
    hide FedAll, Given, Idle, Small, Count, Ground, ParserOk, LookFits, Rows, Fits, CellAt, Proper, LinesDeleted,
      LinesInserted;
    Sent(T, s, vs, c);
    CountIs(vs, c, 0);
    IdleFace(T, s);
    LinedCells(s.f.m, c, Count(vs, 0), x, y);
  }

  lemma {:induction false} LinedCells(m: Plain, c: nat, n: nat, x: nat, y: nat)
    requires Proper(m) && IsLines(c) && x < m.cols && y < m.rows
    ensures |Lined(m, c, n).g| == |m.g| && Lined(m, c, n) == m.(g := Lined(m, c, n).g)
    ensures var from := if c == DL || c == IL then m.y else m.top;
      CellAt(Lined(m, c, n), x, y) ==
        if !(m.top <= from < m.bottom) || y < from || y >= m.bottom then CellAt(m, x, y)
        else if c == IL || c == SD then (if y < from + n then Drawn(SPACE, m.pen) else CellAt(m, x, y - n))
        else if y + n < m.bottom then CellAt(m, x, y + n) else Drawn(SPACE, m.pen)
  {
    hide Rows, Fits, CellAt, At;
    var from := if c == DL || c == IL then m.y else m.top;
    if m.top <= from < m.bottom {
      var count := if n > m.bottom - from then m.bottom - from else n;
      if c == DL || c == SU {
        DeletedLines(m, from, count, x, y);
      } else {
        InsertedLines(m, from, count, x, y);
      }
    }
  }

  /** `CSI n @`, `CSI n P` and `CSI n X`: n cells are inserted, deleted or erased at the
      cursor, within its line. */
  lemma {:induction false} CellsAtCursor(T: Tables, s: State, vs: seq<nat>, c: Octet, x: nat, y: nat)
    requires Idle(T, s) && Small(vs) && c in [0x40, 0x50, 0x58] && x < s.f.m.cols && y < s.f.m.rows
    ensures CellsAndColumn(s.f, FedAll(T, s, Csi(vs, c)).f)
    ensures var f, r, n := s.f, FedAll(T, s, Csi(vs, c)).f, Count(vs, 0);
      CellAt(r.m, x, y) ==
        if y != f.m.y || x < Column(f.m) then CellAt(f.m, x, y)
        else if c == 0x40 then (if x < Column(f.m) + n then Empty(f) else CellAt(f.m, x - n, y))
        else if c == 0x50 then (if x + n < f.m.cols then CellAt(f.m, x + n, y) else Empty(f))
        else if x < Column(f.m) + n then Empty(f) else CellAt(f.m, x, y)
  {
    hide FedAll, Given, Idle, Small, Count, Ground, ParserOk, LookFits, Rows, Fits, CellAt, At, Proper, CharsInserted,
      CharsDeleted, CharsErased;
    Sent(T, s, vs, c);
    CountIs(vs, c, 0);
    CountPositive(vs, 0);
    IdleFace(T, s);
    EditedCells(s.f.m, c, Count(vs, 0), x, y);
  }

  lemma {:induction false} EditedCells(m: Plain, c: nat, n: nat, x: nat, y: nat)
    requires Proper(m) && c in [ICH, DCH, ECH] && n > 0 && x < m.cols && y < m.rows
    ensures |Edited(m, c, n).g| == |m.g| && Edited(m, c, n) == m.(g := Edited(m, c, n).g, x := Column(m))
    ensures CellAt(Edited(m, c, n), x, y) ==
        if y != m.y || x < Column(m) then CellAt(m, x, y)
        else if c == ICH then (if x < Column(m) + n then Drawn(SPACE, m.pen) else CellAt(m, x - n, y))
        else if c == DCH then (if x + n < m.cols then CellAt(m, x + n, y) else Drawn(SPACE, m.pen))
        else if x < Column(m) + n then Drawn(SPACE, m.pen) else CellAt(m, x, y)
  {
    hide Rows, Fits, CellAt, At;
    if c == ICH {
      InsertedChars(m, n, Column(m), m.y, x, y);
    } else if c == DCH {
      DeletedChars(m, n, Column(m), m.y, x, y);
    } else {
      ErasedChars(m, n, Column(m), m.y, x, y);
    }
  }

  /** `CSI n K`: the line from the cursor on, up to it, or all of it becomes blank. */
  lemma {:induction false} EraseInLine(T: Tables, s: State, vs: seq<nat>, x: nat, y: nat)
    requires Idle(T, s) && Small(vs) && Choice(vs, 0) <= 2 && x < s.f.m.cols && y < s.f.m.rows
    ensures CellsAndColumn(s.f, FedAll(T, s, Csi(vs, 0x4B)).f)
    ensures var f, r, mode := s.f, FedAll(T, s, Csi(vs, 0x4B)).f, Choice(vs, 0);
      CellAt(r.m, x, y) ==
        if y == f.m.y && (mode == 0 ==> Column(f.m) <= x) && (mode == 1 ==> x <= Column(f.m)) then Empty(f)
        else CellAt(f.m, x, y)
  {
    hide FedAll, Given, Idle, Small, Choice, Ground, ParserOk, LookFits, Rows, Fits, CellAt, At;
    Sent(T, s, vs, 0x4B);
    CountIs(vs, 0x4B, 0);
    IdleFace(T, s);
    LineBlank(s.f.m, Choice(vs, 0), Column(s.f.m), s.f.m.y, x, y);
  }

  /** `CSI n J`: the screen from the cursor on, up to it, or all of it. */
  lemma {:induction false} EraseInPage(T: Tables, s: State, vs: seq<nat>, x: nat, y: nat)
    requires Idle(T, s) && Small(vs) && Choice(vs, 0) <= 3 && x < s.f.m.cols && y < s.f.m.rows
    ensures var f, r, mode := s.f, FedAll(T, s, Csi(vs, 0x4A)).f, Choice(vs, 0);
      && (mode <= 1 ==> CellsAndColumn(f, r)) && (mode > 1 ==> OnlyCells(f, r))
      && CellAt(r.m, x, y) ==
        if (mode == 0 ==> f.m.y < y || (f.m.y == y && Column(f.m) <= x))
          && (mode == 1 ==> y < f.m.y || (y == f.m.y && x <= Column(f.m))) then Empty(f)
        else CellAt(f.m, x, y)
  {
    hide FedAll, Given, Idle, Small, Choice, Ground, ParserOk, LookFits, Rows, Fits, CellAt, At;
    Sent(T, s, vs, 0x4A);
    CountIs(vs, 0x4A, 0);
    IdleFace(T, s);
    PageBlank(s.f.m, Choice(vs, 0), Column(s.f.m), s.f.m.y, x, y);
  }

  /** Other choices do nothing. */
  lemma {:induction false} EraseOther(T: Tables, s: State, vs: seq<nat>, c: Octet)
    requires Idle(T, s) && Small(vs) && c in [0x4A, 0x4B] && Choice(vs, 0) > (if c == 0x4A then 3 else 2)
    ensures FedAll(T, s, Csi(vs, c)).f == s.f
  {
    hide FedAll, Given, Idle, Small, Choice, Ground, ParserOk, LookFits, Rows, Fits, At;
    Sent(T, s, vs, c);
    CountIs(vs, c, 0);
    IdleFace(T, s);
  }

  // ----- margins and modes -----

  /** `CSI t ; b r`: lines t to b are the region, if there are two of them at least and they
      are on the screen, and otherwise all lines; the cursor goes home. */
  lemma {:induction false} MarginsSet(T: Tables, s: State, vs: seq<nat>)
    requires Idle(T, s) && Small(vs)
    ensures var f, r := s.f, FedAll(T, s, Csi(vs, 0x72)).f;
      var top, bottom := Count(vs, 0), if |vs| > 1 then Count(vs, 1) else f.m.rows;
      && r == f.(m := f.m.(top := r.m.top, bottom := r.m.bottom, x := 0, y := First(r)))
      && (top < bottom <= f.m.rows ==> r.m.top == top - 1 && r.m.bottom == bottom)
      && (!(top < bottom <= f.m.rows) ==> r.m.top == 0 && r.m.bottom == f.m.rows)
  {
    hide FedAll, Given, Idle, Small, Count, Ground, ParserOk, LookFits, Rows, Fits;
    Sent(T, s, vs, 0x72);
    CountIs(vs, 0x72, 0);
    CountIs(vs, 0x72, 1);
    CountPositive(vs, 0);
    IdleFace(T, s);
    NoneIsOne(vs);
  }

  lemma {:induction false} NoneIsOne(vs: seq<nat>)
    ensures |vs| == 0 ==> Count(vs, 0) == 1
  {
  }

  /** `CSI 4 h` and `CSI 4 l`: insert mode. */
  lemma {:induction false} InsertSet(T: Tables, s: State, v: nat, on: bool)
    requires Idle(T, s) && v <= 0xFFFF_FFFF
    ensures FedAll(T, s, Csi([v], if on then 0x68 else 0x6C)).f == if v == 4 then s.f.(insert := on) else s.f
  {
    hide FedAll, Given, Idle, Ground, ParserOk, LookFits, Rows, Fits;
    var c := if on then 0x68 else 0x6C;
    Sent(T, s, [v], c);
    CountIs([v], c, 0);
    IdleFace(T, s);
  }

  /** `ESC [ ?` and the rest. */
  function Private(vs: seq<nat>, c: Octet): seq<Octet> { [0x1B, 0x5B, 0x3F] + Listed(vs) + [c] }

  lemma {:induction false} PrivateSent(T: Tables, s: State, vs: seq<nat>, c: Octet)
    requires Idle(T, s) && FinalByte(c)
    ensures var r, k := FedAll(T, s, Private(vs, c)), Given(vs, c);
      Idle(T, r) && r.f == if c == 0x68 || c == 0x6C then DecModes(s.f, k.values[..k.n], c == 0x68) else s.f
  {
    hide FaceOk, NumbersOk, FedAll, Fed, Counted, Listed, Filled, Closed, DecModes, ValuesOf;
    EscFed(T, s);
    var s1 := Fed(T, s, 0x1B);
    BracketFed(T, s1);
    var s2 := Fed(T, s1, 0x5B);
    PrivateFed(T, s2);
    var s3 := Fed(T, s2, 0x3F);
    ParametersFed(T, s3, Listed(vs));
    var s4 := FedAll(T, s3, Listed(vs));
    FinalFed(T, s4, c);
    ListRead(vs);
    FedOne(T, s, 0x1B);
    FedOne(T, s1, 0x5B);
    FedOne(T, s2, 0x3F);
    FedOne(T, s4, c);
    FedConcat(T, s, [0x1B], [0x5B]);
    FedConcat(T, s, [0x1B] + [0x5B], [0x3F]);
    assert [0x1B] + [0x5B] + [0x3F] == [0x1B, 0x5B, 0x3F];
    FedConcat(T, s, [0x1B, 0x5B, 0x3F], Listed(vs));
    FedConcat(T, s, [0x1B, 0x5B, 0x3F] + Listed(vs), [c]);
  }

  lemma {:induction false} DecModesOne(f: Face, vs: seq<Word>, v: Word, on: bool)
    requires FaceOk(f)
    ensures DecModes(f, [], on) == f && DecModes(f, vs + [v], on) == DecMode(DecModes(f, vs, on), v, on)
  {
    hide FaceOk, DecMode;
    assert (vs + [v])[..|vs + [v]| - 1] == vs;
  }

  /** Every cell blank. */
  ghost predicate AllEmpty(r: Plain, cell: Cell)
    requires Proper(r)
  {
    forall x: nat, y: nat {:trigger CellAt(r, x, y)} :: x < r.cols && y < r.rows ==> CellAt(r, x, y) == cell
  }

  lemma {:induction false} WipedEmpty(m: Plain)
    requires Proper(m)
    ensures var r := Wiped(m, true); r == m.(g := r.g, x := 0, y := 0) && AllEmpty(r, Drawn(SPACE, m.pen))
  {
    hide CellAt, Rows, Fits, Cleared;
    var r := Wiped(m, true);
    forall x: nat, y: nat {:trigger CellAt(r, x, y)} | x < r.cols && y < r.rows
      ensures CellAt(r, x, y) == Drawn(SPACE, m.pen)
    {
      WipedCell(m, true, x, y);
    }
  }

  /** `CSI ? v h` and `CSI ? v l`: origin mode with the cursor going home, wrapping, the
      visible cursor, and the other screen; nothing else. */
  lemma {:induction false} PrivateMode(T: Tables, s: State, v: nat, on: bool)
    requires Idle(T, s) && v <= 0xFFFF_FFFF
    ensures var f, r := s.f, FedAll(T, s, Private([v], if on then 0x68 else 0x6C)).f;
      && (v == 6 ==> r == f.(look := f.look.(origin := on), m := f.m.(x := 0, y := if on then f.m.top else 0)))
      && (v == 7 ==> r == f.(m := f.m.(wrap := on)))
      && (v == 25 ==> r == f.(m := f.m.(cursor := on)))
      && (v == 1049 ==> Proper(r.m) && AllEmpty(r.m, Empty(f)))
      && (v == 1049 && on ==> r == f.(saved := Saved(f.m.x, f.m.y, f.m.pen, f.look), m := f.m.(g := r.m.g, x := 0,
           y := 0)))
      && (v == 1049 && !on ==> r == f.(look := f.saved.look, m := f.m.(g := r.m.g, x := f.saved.x, y := f.saved.y,
           pen := f.saved.pen)))
      && (v !in [6, 7, 25, 1049] ==> r == f)
  {
    hide FedAll, Given, Idle, Ground, ParserOk, LookFits, Rows, Fits, DecModes, Private, Wiped, AllEmpty;
    var c := if on then 0x68 else 0x6C;
    PrivateSent(T, s, [v], c);
    CountIs([v], c, 0);
    IdleFace(T, s);
    var k := Given([v], c);
    assert k.values[..1] == [] + [k.values[0]];
    DecModesOne(s.f, [], k.values[0], on);
    WipedEmpty(s.f.m);
    EmptyAgain(Wiped(s.f.m, true), s.f.saved, Empty(s.f));
  }

  lemma {:induction false} EmptyAgain(m: Plain, s: Saved, cell: Cell)
    requires Proper(m) && AllEmpty(m, cell) && s.x <= m.cols && s.y < m.rows
    ensures Proper(m.(x := s.x, y := s.y, pen := s.pen)) && AllEmpty(m.(x := s.x, y := s.y, pen := s.pen), cell)
  {
    hide Rows, Fits;
    var r := m.(x := s.x, y := s.y, pen := s.pen);
    forall x: nat, y: nat {:trigger CellAt(r, x, y)} | x < r.cols && y < r.rows ensures CellAt(r, x, y) == cell {
      assert CellAt(r, x, y) == CellAt(m, x, y);
    }
  }

  /** Several modes are set one after the other. */
  lemma {:induction false} PrivateModes(T: Tables, s: State, vs: seq<nat>, v: nat, on: bool)
    requires Idle(T, s) && Small(vs + [v])
    ensures var c := if on then 0x68 else 0x6C;
      FedAll(T, s, Private(vs + [v], c)).f == FedAll(T, FedAll(T, s, Private(vs, c)), Private([v], c)).f
  {
    hide FedAll, Given, Idle, Ground, FaceOk, ParserOk, DecModes, DecMode, Private;
    var c := if on then 0x68 else 0x6C;
    IdleFace(T, s);
    var s1 := FedAll(T, s, Private(vs, c));
    PrivateSent(T, s, vs, c);
    PrivateSent(T, s, vs + [v], c);
    PrivateSent(T, s1, [v], c);
    IdleFace(T, s1);
    SmallParts(vs, v);
    GivenList(vs, c);
    GivenList(vs + [v], c);
    GivenList([v], c);
    var w := Count([v], 0);
    CountedLast(vs, v);
    DecModesOne(s.f, Counts(vs), w, on);
    DecModesOne(s1.f, [], w, on);
    assert [] + [w] == [w];
  }

  lemma {:induction false} SmallParts(vs: seq<nat>, v: nat)
    requires Small(vs + [v])
    ensures Small(vs) && Small([v])
  {
    assert (vs + [v])[|vs|] == v;
    forall i | 0 <= i < |vs| ensures vs[i] <= 0xFFFF_FFFF {
      assert (vs + [v])[i] == vs[i];
    }
  }

  /** The numbers of a sequence whose least is 1. */
  function Counts(vs: seq<nat>): (r: seq<Word>)
    requires Small(vs)
  {
    seq(|vs|, i requires 0 <= i < |vs| => Count(vs, i))
  }

  lemma {:induction false} CountedLast(vs: seq<nat>, v: nat)
    requires Small(vs + [v]) && Small(vs) && Small([v])
    ensures Counts(vs + [v]) == Counts(vs) + [Count([v], 0)] && Counts([v]) == [Count([v], 0)]
  {
    assert forall i :: 0 <= i < |vs| ==> Counts(vs + [v])[i] == Counts(vs)[i];
  }

  lemma {:induction false} GivenList(vs: seq<nat>, c: nat)
    requires Small(vs) && !ZeroDefault(c)
    ensures Given(vs, c).n == |vs| && Given(vs, c).values[..|vs|] == Counts(vs)
  {
    hide Given, Count;
    var k := Given(vs, c);
    GivenExact(vs, c, 0);
    forall i | 0 <= i < |vs| ensures k.values[..|vs|][i] == Counts(vs)[i] {
      CountIs(vs, c, i);
    }
  }
}
