/** The queue of pending cells and the map from positions to queue items. */
module TermQueue {
  import opened Counting
  import opened RowMajor
  import opened TermGrid

  datatype Item = Item(x: nat, y: nat, c: Cell)

  /** No pending cell. */
  const NONE: int := -1

  /** Pending position of item k. */
  function Place(queue: seq<Item>, k: nat, cols: nat): nat
    requires k < |queue|
  {
    At(queue[k].x, queue[k].y, cols)
  }

  ghost predicate OnScreen(q: Item, rows: nat, cols: nat) { q.x < cols && q.y < rows }

  /** The map and the first n items of the queue point at each other. */
  ghost predicate Linked(queue: seq<Item>, slot: seq<int>, n: nat, rows: nat, cols: nat)
  {
    && |queue| == |slot| == Rows(rows, cols) && n <= |queue|
    && (forall i {:trigger slot[i]} :: 0 <= i < |slot| ==>
         slot[i] == NONE || (0 <= slot[i] < n && Place(queue, slot[i], cols) == i))
    && (forall k {:trigger queue[k]} :: 0 <= k < n ==>
         OnScreen(queue[k], rows, cols) && Place(queue, k, cols) < |slot| && slot[Place(queue, k, cols)] == k)
  }

  /** The grid as it will look once everything pending is drawn. */
  ghost function View(grid: seq<Cell>, queue: seq<Item>, slot: seq<int>): (v: Grid)
    requires |slot| == |grid| && forall i {:trigger slot[i]} :: 0 <= i < |slot| ==>
      slot[i] == NONE || 0 <= slot[i] < |queue|
    ensures |v| == |grid|
  {
    seq(|grid|, i requires 0 <= i < |grid| => if slot[i] == NONE then grid[i] else queue[slot[i]].c)
  }

  /** A position with nothing pending leaves room in the queue: the queue-full exit of
      `push_to_queue` is never taken. */
  lemma {:induction false} RoomLeft(queue: seq<Item>, slot: seq<int>, n: nat, rows: nat, cols: nat, i: nat)
    requires Linked(queue, slot, n, rows, cols) && i < |slot| && slot[i] == NONE
    ensures n < Rows(rows, cols)
  {
    var s := seq(n, k requires 0 <= k < n => Place(queue, k, cols)) + [i];
    forall j, k {:trigger s[j], s[k]} | 0 <= j < k < |s| ensures s[j] != s[k] {
      assert slot[Place(queue, j, cols)] == j by { assert OnScreen(queue[j], rows, cols); }
      if k < n {
        assert slot[Place(queue, k, cols)] == k by { assert OnScreen(queue[k], rows, cols); }
      }
    }
    forall k {:trigger s[k]} | 0 <= k < |s| ensures s[k] < Rows(rows, cols) {
      if k < n {
        assert OnScreen(queue[k], rows, cols);
      }
    }
    Pigeonhole(s, Rows(rows, cols));
  }

  /** Queueing a cell for a position with nothing pending. */
  lemma {:induction false} PushNew(grid: seq<Cell>, queue: seq<Item>, slot: seq<int>, n: nat, rows: nat, cols: nat,
      q: Item, i: nat)
    requires Linked(queue, slot, n, rows, cols) && |grid| == |slot| && OnScreen(q, rows, cols)
      && i == At(q.x, q.y, cols) < |slot| && slot[i] == NONE && n < |queue|
    ensures Linked(queue[n := q], slot[i := n], n + 1, rows, cols)
    ensures View(grid, queue[n := q], slot[i := n]) == View(grid, queue, slot)[i := q.c]
  {
    var queue', slot' := queue[n := q], slot[i := n];
    assert Place(queue', n, cols) == i;
    forall k: nat {:trigger Place(queue', k, cols)} | k < n ensures Place(queue', k, cols) == Place(queue, k, cols) {
    }
    hide At;
    forall k {:trigger queue'[k]} | 0 <= k < n + 1
      ensures OnScreen(queue'[k], rows, cols) && Place(queue', k, cols) < |slot'| && slot'[Place(queue', k, cols)] == k
    {
      if k < n {
        assert OnScreen(queue[k], rows, cols);
      }
    }
    forall j {:trigger slot'[j]} | 0 <= j < |slot'|
      ensures slot'[j] == NONE || (0 <= slot'[j] < n + 1 && Place(queue', slot'[j], cols) == j) {
      if j != i && slot[j] != NONE {
        assert 0 <= slot[j] < n && Place(queue', slot[j], cols) == Place(queue, slot[j], cols) == j;
      }
    }
    NewView(grid, queue, slot, n, q, i);
  }

  lemma {:induction false} NewView(grid: seq<Cell>, queue: seq<Item>, slot: seq<int>, n: nat, q: Item, i: nat)
    requires |grid| == |slot| && i < |slot| && slot[i] == NONE && n < |queue|
    requires forall j {:trigger slot[j]} :: 0 <= j < |slot| ==> slot[j] == NONE || 0 <= slot[j] < n
    ensures forall j {:trigger slot[i := n][j]} :: 0 <= j < |slot| ==>
      slot[i := n][j] == NONE || 0 <= slot[i := n][j] < n + 1
    ensures View(grid, queue[n := q], slot[i := n]) == View(grid, queue, slot)[i := q.c]
  {
    var queue', slot' := queue[n := q], slot[i := n];
    forall j | 0 <= j < |grid| ensures View(grid, queue', slot')[j] == View(grid, queue, slot)[i := q.c][j] {
      if j != i {
        assert slot'[j] == slot[j];
      }
    }
  }

  /** Replacing the cell that is pending at a position. */
  lemma {:induction false} PushOld(grid: seq<Cell>, queue: seq<Item>, slot: seq<int>, n: nat, rows: nat, cols: nat,
      c: Cell, i: nat)
    requires Linked(queue, slot, n, rows, cols) && |grid| == |slot| && i < |slot| && slot[i] != NONE
    ensures 0 <= slot[i] < n
    ensures Linked(queue[slot[i] := queue[slot[i]].(c := c)], slot, n, rows, cols)
    ensures View(grid, queue[slot[i] := queue[slot[i]].(c := c)], slot) == View(grid, queue, slot)[i := c]
  {
    var k0 := slot[i];
    var queue' := queue[k0 := queue[k0].(c := c)];
    assert forall k: nat :: k < |queue| ==> Place(queue', k, cols) == Place(queue, k, cols);
    RecolourLinked(queue, queue', slot, n, rows, cols);
    RecolourView(grid, queue, queue', slot, n, rows, cols, c, i);
  }

  /** Only positions matter to the links. */
  lemma {:induction false} RecolourLinked(queue: seq<Item>, queue': seq<Item>, slot: seq<int>, n: nat, rows: nat,
      cols: nat)
    requires Linked(queue, slot, n, rows, cols) && |queue'| == |queue|
    requires forall k {:trigger queue'[k]} :: 0 <= k < |queue| ==>
      queue'[k].x == queue[k].x && queue'[k].y == queue[k].y
    ensures Linked(queue', slot, n, rows, cols)
  {
    forall k {:trigger queue'[k]} | 0 <= k < n
      ensures OnScreen(queue'[k], rows, cols) && Place(queue', k, cols) < |slot| && slot[Place(queue', k, cols)] == k
    {
      assert OnScreen(queue[k], rows, cols) && Place(queue', k, cols) == Place(queue, k, cols);
    }
    forall j {:trigger slot[j]} | 0 <= j < |slot| && slot[j] != NONE
      ensures 0 <= slot[j] < n && Place(queue', slot[j], cols) == j {
      assert Place(queue, slot[j], cols) == j && queue'[slot[j]].x == queue[slot[j]].x;
    }
  }

  lemma {:induction false} RecolourView(grid: seq<Cell>, queue: seq<Item>, queue': seq<Item>, slot: seq<int>, n: nat,
      rows: nat, cols: nat, c: Cell, i: nat)
    requires Linked(queue, slot, n, rows, cols) && |grid| == |slot| && i < |slot| && slot[i] != NONE
    requires queue' == queue[slot[i] := queue[slot[i]].(c := c)]
    ensures View(grid, queue', slot) == View(grid, queue, slot)[i := c]
  {
    forall j | 0 <= j < |grid| ensures View(grid, queue', slot)[j] == View(grid, queue, slot)[i := c][j] {
      assert slot[j] == NONE || Place(queue, slot[j], cols) == j;
    }
  }
}
