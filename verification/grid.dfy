/** Row-major enumeration of rectangular grids, the loop order of every
    index-buffer generator in the editor (outer loop over rows, inner loop
    over columns). */
module Grid {

  /** A grid cell: row r, column c. */
  datatype Cell = Cell(row: nat, col: nat)

  /** Row r of a grid w cells wide: (r, 0), ..., (r, w-1). */
  function Row(w: nat, r: nat): (s: seq<Cell>)
    ensures |s| == w
    ensures forall c :: 0 <= c < w ==> s[c] == Cell(r, c)
  {
    seq(w, c requires 0 <= c < w => Cell(r, c))
  }

  /** The cells of the first h rows, row after row. */
  function RowMajor(w: nat, h: nat): seq<Cell> {
    if h == 0 then [] else RowMajor(w, h - 1) + Row(w, h - 1)
  }

  lemma MulLe(x: nat, y: nat, w: nat)
    requires x <= y
    ensures x * w <= y * w
  {
    assert y * w == x * w + (y - x) * w;
  }

  /** Row-major positions grow with (row, column) in loop order. */
  lemma RowMajorLess(a: nat, b: nat, r: nat, c: nat, w: nat)
    requires b < w && (a < r || (a == r && b < c))
    ensures a * w + b < r * w + c
  {
    if a < r {
      MulLe(a + 1, r, w);
      assert a * w + w == (a + 1) * w;
    }
  }

  lemma {:induction false} RowMajorLength(w: nat, h: nat)
    ensures |RowMajor(w, h)| == h * w
  {
    if h > 0 {
      RowMajorLength(w, h - 1);
      assert (h - 1) * w + w == h * w;
    }
  }

  /** Every position of the enumeration holds a cell of the grid. */
  lemma {:induction false} RowMajorCells(w: nat, h: nat)
    ensures forall k :: 0 <= k < |RowMajor(w, h)| ==> RowMajor(w, h)[k].row < h && RowMajor(w, h)[k].col < w
  {
    if h > 0 {
      RowMajorCells(w, h - 1);
    }
  }

  /** Cell (r, c) sits at position r*w + c. */
  lemma {:induction false} RowMajorAt(w: nat, h: nat, r: nat, c: nat)
    requires r < h && c < w
    ensures |RowMajor(w, h)| == h * w
    ensures r * w + c < h * w && RowMajor(w, h)[r * w + c] == Cell(r, c)
  {
    RowMajorLength(w, h);
    RowMajorLess(r, c, h, 0, w);
    RowMajorLength(w, h - 1);
    if r < h - 1 {
      RowMajorAt(w, h - 1, r, c);
    } else {
      assert RowMajor(w, h)[r * w + c] == Row(w, h - 1)[c];
    }
  }

  /** Cell (r, c) of a w-wide, h-high grid sits at position r*w + c of the enumeration. */
  predicate Placed(w: nat, h: nat, r: nat, c: nat) {
    r * w + c < |RowMajor(w, h)| && RowMajor(w, h)[r * w + c] == Cell(r, c)
  }

  /** The enumeration is a bijection from the grid onto [0, h*w). */
  lemma RowMajorLayout(w: nat, h: nat)
    ensures |RowMajor(w, h)| == h * w
    ensures forall r, c :: 0 <= r < h && 0 <= c < w ==> Placed(w, h, r, c)
    ensures forall k :: 0 <= k < |RowMajor(w, h)| ==> RowMajor(w, h)[k].row < h && RowMajor(w, h)[k].col < w
  {
    RowMajorLength(w, h);
    RowMajorCells(w, h);
    forall r, c | 0 <= r < h && 0 <= c < w
      ensures Placed(w, h, r, c)
    {
      RowMajorAt(w, h, r, c);
    }
  }
}
