/** Numbers laid out in rows of equal length. The source multiplies and divides by row
    lengths that are not constants; the functions here do it by repeated addition, and
    `Arithmetic` says that this is the same. */
module RowMajor {

  /** `y * cols`: the cells of the first y rows. */
  function Rows(y: nat, cols: nat): (r: nat)
  {
    if y == 0 then 0 else Rows(y - 1, cols) + cols
  }

  /** `y * cols + x` */
  function At(x: nat, y: nat, cols: nat): nat { Rows(y, cols) + x }

  /** `i % cols` */
  function ColOf(i: nat, cols: nat): (x: nat)
    requires cols > 0
    ensures x < cols
  {
    if i < cols then i else ColOf(i - cols, cols)
  }

  /** `i / cols` */
  function RowOf(i: nat, cols: nat): nat
    requires cols > 0
  {
    if i < cols then 0 else 1 + RowOf(i - cols, cols)
  }

  lemma {:induction false} Product(y: nat, cols: nat)
    ensures Rows(y, cols) == y * cols
  {
    if y > 0 {
      Product(y - 1, cols);
      assert y * cols == (y - 1) * cols + cols;
    }
  }

  /** Rows, columns and products are those of integer arithmetic. */
  lemma {:induction false} Arithmetic(i: nat, y: nat, cols: nat)
    requires cols > 0
    ensures Rows(y, cols) == y * cols && RowOf(i, cols) == i / cols && ColOf(i, cols) == i % cols
  {
    Product(y, cols);
    Split(i, cols, 0);
    Quotient(i, RowOf(i, cols), ColOf(i, cols), cols);
  }

  lemma {:induction false} Quotient(i: nat, q: nat, r: nat, cols: nat)
    requires r < cols && i == Rows(q, cols) + r
    ensures i / cols == q && i % cols == r
  {
    Product(q, cols);
    var q' := i / cols;
    assert i == q' * cols + i % cols && 0 <= i % cols < cols;
    if q < q' {
      Product(q', cols);
      RowsMonotone(q, q', cols);
    } else if q' < q {
      Product(q', cols);
      RowsMonotone(q', q, cols);
    }
  }

  lemma {:induction false} RowsNext(y: nat, cols: nat)
    ensures Rows(y + 1, cols) == Rows(y, cols) + cols
  {
  }

  lemma {:induction false} RowsOne(cols: nat)
    ensures Rows(0, cols) == 0 && Rows(1, cols) == cols
  {
    assert Rows(1, cols) == Rows(0, cols) + cols;
  }

  lemma {:induction false} RowsMonotone(a: nat, b: nat, cols: nat)
    requires a <= b
    ensures Rows(a, cols) <= Rows(b, cols)
    ensures a < b ==> Rows(a, cols) + cols <= Rows(b, cols)
    decreases b - a
  {
    if a < b {
      RowsMonotone(a, b - 1, cols);
      RowsNext(b - 1, cols);
    }
  }

  lemma {:induction false} AtBounds(x: nat, y: nat, cols: nat, rows: nat)
    requires x < cols && y < rows
    ensures Rows(y, cols) <= At(x, y, cols) < Rows(y + 1, cols) <= Rows(rows, cols)
  {
    RowsNext(y, cols);
    RowsMonotone(y + 1, rows, cols);
  }

  lemma {:induction false} AtUnique(x: nat, y: nat, x': nat, y': nat, cols: nat)
    requires x < cols && x' < cols && At(x, y, cols) == At(x', y', cols)
    ensures x == x' && y == y'
  {
    if y < y' {
      RowsMonotone(y, y', cols);
    } else if y' < y {
      RowsMonotone(y', y, cols);
    }
  }

  /** Dividing an index gives back its row and column. */
  lemma {:induction false} Split(i: nat, cols: nat, rows: nat)
    requires cols > 0
    ensures ColOf(i, cols) < cols && At(ColOf(i, cols), RowOf(i, cols), cols) == i
    ensures i < Rows(rows, cols) ==> RowOf(i, cols) < rows
  {
    SplitAt(i, cols);
    if rows <= RowOf(i, cols) {
      RowsMonotone(rows, RowOf(i, cols), cols);
    }
  }

  lemma {:induction false} SplitAt(i: nat, cols: nat)
    requires cols > 0
    ensures Rows(RowOf(i, cols), cols) + ColOf(i, cols) == i
  {
    if i >= cols {
      SplitAt(i - cols, cols);
      RowsNext(RowOf(i - cols, cols), cols);
    }
  }

  lemma {:induction false} RowsPlus(a: nat, b: nat, cols: nat)
    ensures Rows(a + b, cols) == Rows(a, cols) + Rows(b, cols)
  {
    if b > 0 {
      RowsPlus(a, b - 1, cols);
    }
  }

  /** Rows of rows. */
  lemma {:induction false} RowsRows(a: nat, b: nat, cols: nat)
    ensures Rows(Rows(a, b), cols) == Rows(a, Rows(b, cols))
  {
    if a > 0 {
      RowsRows(a - 1, b, cols);
      RowsPlus(Rows(a - 1, b), b, cols);
    }
  }

  /** A multiple of m is so many rows of m. */
  lemma {:induction false} MultipleRows(a: nat, m: nat) returns (p: nat)
    requires m > 0 && a % m == 0
    ensures a == Rows(p, m)
  {
    p := a / m;
    Product(p, m);
    assert a == p * m;
  }

  /** Multiples of m are m apart. */
  lemma {:induction false} MultipleGap(a: nat, b: nat, m: nat)
    requires m > 0 && a % m == 0 && b % m == 0 && a < b
    ensures a + m <= b && (b - a) % m == 0
  {
    var p := MultipleRows(a, m);
    var q := MultipleRows(b, m);
    if q <= p {
      RowsMonotone(q, p, m);
    } else {
      RowsMonotone(p, q, m);
      RowsPlus(p, q - p, m);
      Quotient(b - a, q - p, 0, m);
    }
  }

  lemma {:induction false} RowsMultiple(r: nat, n: nat, m: nat)
    requires m > 0 && n % m == 0
    ensures Rows(r, n) % m == 0
  {
    if r > 0 {
      RowsMultiple(r - 1, n, m);
      SumMultiple(Rows(r - 1, n), n, m);
    }
  }

  lemma {:induction false} SumMultiple(a: nat, b: nat, m: nat)
    requires m > 0 && a % m == 0 && b % m == 0
    ensures (a + b) % m == 0
  {
    var p := MultipleRows(a, m);
    var q := MultipleRows(b, m);
    RowsPlus(p, q, m);
    Quotient(a + b, p + q, 0, m);
  }

  /** A field of m bytes at a multiple of m lies within one row. */
  lemma {:induction false} FieldInRow(i: nat, n: nat, m: nat)
    requires m > 0 && n > 0 && n % m == 0 && i % m == 0
    ensures Rows(RowOf(i, n), n) + ColOf(i, n) == i && ColOf(i, n) + m <= n == Rows(1, n)
  {
    var r, x := RowOf(i, n), ColOf(i, n);
    SplitAt(i, n);
    RowsMultiple(r, n, m);
    RowsOne(n);
    if 0 < x {
      MultipleGap(Rows(r, n), i, m);
      MultipleGap(x, n, m);
    } else {
      MultipleGap(0, n, m);
    }
  }

  /** The row and column of an index are unique. */
  lemma {:induction false} SplitUnique(i: nat, x: nat, y: nat, cols: nat)
    requires x < cols && i == At(x, y, cols)
    ensures ColOf(i, cols) == x && RowOf(i, cols) == y
  {
    Split(i, cols, 0);
    AtUnique(x, y, ColOf(i, cols), RowOf(i, cols), cols);
  }
}
