/** The live part of a ring: `len` cells starting at `head`, wrapping at the end of the storage. */
module RingWindow {
  import opened Bits

  lemma CellIs(a: nat, n: nat)
    requires n > 0
    ensures a < n ==> a % n == a
    ensures n <= a < 2 * n ==> a % n == a - n
  {
    if a < n {
      ModUnique(a, n, 0, a);
    } else if a < 2 * n {
      ModUnique(a, n, 1, a - n);
    }
  }

  /** The cell i places after the head. */
  function Cell(head: nat, i: nat, n: nat): (r: nat)
    requires n > 0 && head <= n && i <= n
    ensures r < n
    ensures head + i < n ==> r == head + i
    ensures n <= head + i < 2 * n ==> r == head + i - n
  {
    CellIs(head + i, n);
    (head + i) % n
  }

  function Window<T>(cells: seq<T>, head: nat, len: nat): (r: seq<T>)
    requires len <= |cells| && (len == 0 || head < |cells|)
    ensures |r| == len
  {
    seq(len, i requires 0 <= i < len => cells[Cell(head, i, |cells|)])
  }

  /** Writing the cell after the last one and counting it appends. */
  lemma Appends<T>(cells: seq<T>, head: nat, len: nat, x: T)
    requires head < |cells| && len < |cells|
    ensures Window(cells[Cell(head, len, |cells|) := x], head, len + 1) == Window(cells, head, len) + [x]
  {
    hide Cell;
  }

  /** Whatever is written to the first cell, dropping it leaves the rest. */
  lemma Drops<T>(cells: seq<T>, head: nat, len: nat, x: T)
    requires head < |cells| && 0 < len <= |cells|
    ensures Window(cells[head := x], Cell(head, 1, |cells|), len - 1) == Window(cells, head, len)[1..]
    ensures Window(cells, head, len)[0] == cells[head]
  {
    var n, w := |cells|, Window(cells, head, len);
    hide Cell;
    forall i | 0 <= i < len - 1 ensures Window(cells[head := x], Cell(head, 1, n), len - 1)[i] == w[1..][i] {
      assert Cell(Cell(head, 1, n), i, n) == Cell(head, i + 1, n) != head;
    }
  }

  /** Writing one live cell updates its place in the window. */
  lemma Replaces<T>(cells: seq<T>, head: nat, len: nat, k: nat, x: T)
    requires head < |cells| && len <= |cells| && k < len
    ensures Window(cells[Cell(head, k, |cells|) := x], head, len) == Window(cells, head, len)[k := x]
  {
    hide Cell;
  }

  /** Dropping several cells at once. */
  lemma Skips<T>(cells: seq<T>, head: nat, len: nat, n: nat)
    requires head < |cells| && n <= len <= |cells|
    ensures Window(cells, Cell(head, n, |cells|), len - n) == Window(cells, head, len)[n..]
  {
    hide Cell;
    forall i | 0 <= i < len - n ensures Window(cells, Cell(head, n, |cells|), len - n)[i] ==
      Window(cells, head, len)[n..][i] {
      assert Cell(Cell(head, n, |cells|), i, |cells|) == Cell(head, n + i, |cells|);
    }
  }
}
