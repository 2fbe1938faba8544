/**
 * The 3×3 tic-tac-toe board of TicTacToeView: an int grid whose cells are 0
 * (empty) or the number of the player who marked them, and the mapping of a
 * touch to a cell.
 */
module TicTacToeBoard {
  import opened JavaLang

  const Size: int := 3

  predicate InBounds(row: int, col: int) {
    0 <= row < Size && 0 <= col < Size
  }

  /** Every cell of a 3×3 grid is empty. */
  ghost predicate AllEmpty(b: array2<int>)
    reads b
    requires b.Length0 == Size && b.Length1 == Size
  {
    forall i, j :: InBounds(i, j) ==> b[i, j] == 0
  }

  /** The view's board: `int[][] board = new int[3][3]`, updated in place. */
  class BoardView {
    const board: array2<int>

    ghost predicate Valid()
      reads this
    {
      board.Length0 == Size && board.Length1 == Size
    }

    /** init(): a fresh board of empty cells. */
    constructor ()
      ensures Valid() && fresh(board) && AllEmpty(board)
    {
      board := new int[Size, Size]((i, j) => 0);
    }

    /**
     * markCell: writes `player` into an empty in-bounds cell and answers true;
     * an out-of-bounds or occupied cell leaves the board as it was and
     * answers false.
     */
    method MarkCell(row: int, col: int, player: int) returns (marked: bool)
      requires Valid()
      modifies board
      ensures marked == (InBounds(row, col) && old(board[row, col]) == 0)
      ensures !marked ==> unchanged(board)
      ensures forall i, j :: InBounds(i, j) ==>
        board[i, j] == if marked && i == row && j == col then player else old(board[i, j])
      ensures forall i, j :: InBounds(i, j) && old(board[i, j]) != 0 ==> board[i, j] == old(board[i, j])
    {
      if row < 0 || row >= Size || col < 0 || col >= Size || board[row, col] != 0 {
        return false;
      }
      board[row, col] := player;
      return true;
    }

    /** resetBoard: clears every cell, row by row. */
    method ResetBoard()
      requires Valid()
      modifies board
      ensures AllEmpty(board)
    {
      var i := 0;
      while i < Size
        invariant 0 <= i <= Size
        invariant forall r, c :: 0 <= r < i && 0 <= c < Size ==> board[r, c] == 0
      {
        var j := 0;
        while j < Size
          invariant 0 <= j <= Size
          invariant forall r, c :: 0 <= r < i && 0 <= c < Size ==> board[r, c] == 0
          invariant forall c :: 0 <= c < j ==> board[i, c] == 0
        {
          board[i, j] := 0;
          j := j + 1;
        }
        i := i + 1;
      }
    }

    /**
     * getBoardState: a fresh 3×3 copy of the board, cell for cell; the board
     * and the copy share nothing.
     */
    method GetBoardState() returns (copy: array2<int>)
      requires Valid()
      ensures fresh(copy)
      ensures copy.Length0 == Size && copy.Length1 == Size
      ensures forall i, j :: InBounds(i, j) ==> copy[i, j] == board[i, j]
    {
      copy := new int[Size, Size];
      var i := 0;
      while i < Size
        invariant 0 <= i <= Size
        invariant forall r, c :: 0 <= r < i && 0 <= c < Size ==> copy[r, c] == board[r, c]
      {
        var j := 0;
        while j < Size
          invariant 0 <= j <= Size
          invariant forall r, c :: 0 <= r < i && 0 <= c < Size ==> copy[r, c] == board[r, c]
          invariant forall c :: 0 <= c < j ==> copy[i, c] == board[i, c]
        {
          copy[i, j] := board[i, j];
          j := j + 1;
        }
        i := i + 1;
      }
    }
  }

  /** What onTouchEvent does with one motion event. */
  datatype TouchOutcome =
    | NotHandled                        // returns false, no listener call
    | CellClicked(row: int, col: int)   // onCellClicked(row, col), returns true
    | DivideByZero                      // width / 3 == 0: the int division throws

  /**
   * onTouchEvent for an event at pixel (x, y) on a view `width` pixels wide:
   * only ACTION_DOWN is acted on; the cell is (y / (width / 3), x / (width / 3))
   * in Java's int division, and it is reported only when both indices are
   * below 3.
   */
  function OnTouchEvent(actionDown: bool, x: int, y: int, width: int): (t: TouchOutcome)
    requires width >= 0
    ensures t.CellClicked? ==> actionDown && t.row < Size && t.col < Size
    ensures t.DivideByZero? <==> actionDown && width < Size
    ensures !actionDown ==> t.NotHandled?
  {
    if !actionDown then NotHandled
    else
      var cellSize := width / Size;
      if cellSize == 0 then DivideByZero
      else
        var col := Quot(x, cellSize);
        var row := Quot(y, cellSize);
        if row < Size && col < Size then CellClicked(row, col) else NotHandled
  }

  /** The index of the cell-sized band holding a non-negative pixel offset. */
  lemma {:induction false} BandOf(p: int, cellSize: int)
    requires cellSize > 0 && 0 <= p
    ensures Quot(p, cellSize) * cellSize <= p < (Quot(p, cellSize) + 1) * cellSize
    ensures p < Size * cellSize ==> 0 <= Quot(p, cellSize) < Size
  {
    var q := Quot(p, cellSize);
    if q >= Size {
      MulMono(Size, q, cellSize);
    }
  }

  /**
   * A press on the square grid area, 0 <= x, y < 3 * (width / 3), is reported
   * as the cell whose square contains the point.
   */
  lemma TouchHitsContainingCell(x: int, y: int, width: int)
    requires width >= Size && 0 <= x < Size * (width / Size) && 0 <= y < Size * (width / Size)
    ensures var t := OnTouchEvent(true, x, y, width);
      && t.CellClicked? && InBounds(t.row, t.col)
      && t.col * (width / Size) <= x < (t.col + 1) * (width / Size)
      && t.row * (width / Size) <= y < (t.row + 1) * (width / Size)
  {
    BandOf(x, width / Size);
    BandOf(y, width / Size);
  }
}
