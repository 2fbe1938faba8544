/**
 * The 6×7 board of FourInARowView: an int grid whose cells are 0 (empty) or
 * the number of the player whose chip is there, replaced wholesale on reset,
 * and the mapping of a touch to the lowest empty cell of the touched column.
 */
module FourInARowBoard {
  import opened JavaLang

  const Rows: int := 6
  const Cols: int := 7

  predicate InGrid(row: int, col: int) {
    0 <= row < Rows && 0 <= col < Cols
  }

  predicate Shaped(b: array2<int>) {
    b.Length0 == Rows && b.Length1 == Cols
  }

  ghost predicate Empty(b: array2<int>)
    reads b
    requires Shaped(b)
  {
    forall i, j :: InGrid(i, j) ==> b[i, j] == 0
  }

  /** What onTouchEvent does with one motion event. */
  datatype Touch =
    | NotHandled                                  // returns false, no listener call
    | MoveMade(row: int, col: int, player: int)   // onMoveMade(row, col, player), returns true

  /** The view's board: `int[][] board = new int[6][7]`; resetBoard allocates a new one. */
  class BoardView {
    var board: array2<int>

    ghost predicate Valid()
      reads this
    {
      Shaped(board)
    }

    constructor ()
      ensures Valid() && fresh(board) && Empty(board)
    {
      board := new int[Rows, Cols]((i, j) => 0);
    }

    /**
     * placeChip: drops `player` into an empty cell and answers true; an
     * occupied cell is left alone and the answer is false. The cell must lie
     * on the grid (the array access throws otherwise).
     */
    method PlaceChip(row: int, col: int, player: int) returns (placed: bool)
      requires Valid() && InGrid(row, col)
      modifies board
      ensures placed == (old(board[row, col]) == 0)
      ensures !placed ==> unchanged(board)
      ensures forall i, j :: InGrid(i, j) ==>
        board[i, j] == if placed && i == row && j == col then player else old(board[i, j])
    {
      if board[row, col] == 0 {
        board[row, col] := player;
        return true;
      }
      return false;
    }

    /** resetBoard: replaces the board by a new, empty one; the old array is left as it was. */
    method ResetBoard()
      requires Valid()
      modifies this
      ensures Valid() && fresh(board) && Empty(board)
    {
      board := new int[Rows, Cols]((i, j) => 0);
    }

    /** getBoard: the live array, not a copy. */
    method GetBoard() returns (b: array2<int>)
      ensures b == board
    {
      return board;
    }

    /**
     * The scan of onTouchEvent: from the bottom row up, the first empty cell of
     * `col`; None when the column is full.
     */
    method LowestEmptyRow(col: int) returns (row: Option<int>)
      requires Valid() && 0 <= col < Cols
      ensures row.Some? ==> InGrid(row.value, col) && board[row.value, col] == 0
      ensures row.Some? ==> forall r :: row.value < r < Rows ==> board[r, col] != 0
      ensures row.None? <==> forall r :: 0 <= r < Rows ==> board[r, col] != 0
    {
      var r := Rows - 1;
      while r >= 0
        invariant -1 <= r < Rows
        invariant forall k :: r < k < Rows ==> board[k, col] != 0
      {
        if board[r, col] == 0 {
          return Some(r);
        }
        r := r - 1;
      }
      return None;
    }

    /**
     * onTouchEvent for a press at pixel column `x` of a view `width` pixels
     * wide: only ACTION_DOWN is acted on; the chip goes to the lowest empty
     * cell of the touched column and the listener is told player 0; a full
     * column is not handled.
     */
    method OnTouchEvent(actionDown: bool, x: int, width: int) returns (t: Touch)
      requires Valid() && 0 <= x < width
      ensures !actionDown ==> t.NotHandled?
      ensures t.MoveMade? ==>
        && t.col == ColumnOf(x, width) && t.player == 0
        && InGrid(t.row, t.col) && board[t.row, t.col] == 0
        && forall r :: t.row < r < Rows ==> board[r, t.col] != 0
      ensures actionDown && t.NotHandled? ==> forall r :: 0 <= r < Rows ==> board[r, ColumnOf(x, width)] != 0
    {
      if !actionDown {
        return NotHandled;
      }
      var col := ColumnOf(x, width);
      var row := LowestEmptyRow(col);
      if row.Some? {
        return MoveMade(row.value, col, 0);
      }
      return NotHandled;
    }
  }

  /**
   * The column onTouchEvent computes as written: `(int) (x / (width / 7))`
   * with `width / 7` an int division and the outer division on floats. A
   * view narrower than 7 pixels divides by zero: 0 / 0.0 is NaN and casts to
   * 0, any other x gives infinity and casts to Integer.MAX_VALUE.
   */
  function ColumnAsWritten(x: int, width: int): (c: int)
    requires 0 <= x
    ensures c >= 0
  {
    var cellWidth := width / Cols;
    if cellWidth <= 0 then (if x == 0 then 0 else MaxInt32)
    else x / cellWidth
  }

  /**
   * The column as the board is drawn (cells `width / 7.0` pixels wide): the
   * seventh of the view that holds x. It is always a column of the grid.
   */
  function ColumnOf(x: int, width: int): (c: int)
    requires 0 <= x < width
    ensures 0 <= c < Cols
    ensures c * width <= Cols * x < (c + 1) * width
  {
    DivBounds(Cols * x, width);
    var c := Cols * x / width;
    assert c < Cols by {
      if c >= Cols {
        MulMono(Cols, c, width);
      }
    }
    c
  }

  /**
   * On a view whose width is not a multiple of 7, the as-written column of
   * the last pixels past 7 whole cells is 7, one past the grid, so the board
   * access of onTouchEvent throws.
   */
  lemma {:induction false} ColumnAsWrittenOverruns(width: int)
    requires width >= Cols && width % Cols != 0
    ensures var x := Cols * (width / Cols);
      && 0 <= x < width
      && ColumnAsWritten(x, width) == Cols
      && !InGrid(0, ColumnAsWritten(x, width))
  {
    var q := width / Cols;
    assert q >= 1;
    var x := Cols * q;
    DivOfMultiple(Cols, q);
  }

  /** The concrete case: a 701-pixel-wide view and a press at x = 700. */
  lemma ColumnAsWrittenAt701()
    ensures ColumnAsWritten(700, 701) == 7 && !InGrid(0, 7)
  {
    ColumnAsWrittenOverruns(701);
  }

  lemma {:induction false} DivOfMultiple(k: int, q: int)
    requires 0 <= k && 0 < q
    ensures (k * q) / q == k
  {
    DivUnique(k * q, q, k, 0);
  }

  /**
   * When the width is a multiple of 7 the corrected column agrees with the
   * one the code computes, so the correction only changes the views the code
   * gets wrong.
   */
  lemma {:induction false} ColumnsAgree(x: int, width: int)
    requires 0 <= x < width && width % Cols == 0
    ensures ColumnAsWritten(x, width) == ColumnOf(x, width)
  {
    var q := width / Cols;
    assert width == Cols * q;
    var a := x / q;
    var r := x % q;
    assert x == a * q + r;
    assert Cols * x == a * width + Cols * r;
    DivUnique(Cols * x, width, a, Cols * r);
  }
}
