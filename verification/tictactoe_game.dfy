/**
 * TicTacToeActivity: the tic-tac-toe rules (checkWin, isBoardFull) and the
 * session state of one game — whose turn it is, whether a result is shown,
 * the starting player that alternates on every confirmed reset — driven by
 * local clicks and by MOVE, RESET_GAME_CONFIRMED and EXIT_TICTACTOE frames.
 */
module TicTacToeGame {
  import opened JavaLang
  import opened Turns
  import opened TicTacToeBoard

  // ---------------------------------------------------------------------------
  // Rules
  // ---------------------------------------------------------------------------

  predicate Square(b: array2<int>) {
    b.Length0 == Size && b.Length1 == Size
  }

  ghost predicate RowOf(b: array2<int>, i: int, p: int)
    reads b
    requires Square(b) && 0 <= i < Size
  {
    forall j :: 0 <= j < Size ==> b[i, j] == p
  }

  ghost predicate ColumnOf(b: array2<int>, j: int, p: int)
    reads b
    requires Square(b) && 0 <= j < Size
  {
    forall i :: 0 <= i < Size ==> b[i, j] == p
  }

  ghost predicate DiagonalOf(b: array2<int>, p: int)
    reads b
    requires Square(b)
  {
    forall i :: 0 <= i < Size ==> b[i, i] == p
  }

  ghost predicate AntiDiagonalOf(b: array2<int>, p: int)
    reads b
    requires Square(b)
  {
    forall i, j :: InBounds(i, j) && i + j == Size - 1 ==> b[i, j] == p
  }

  /** `p` holds a whole row, a whole column or one of the two diagonals. */
  ghost predicate Wins(b: array2<int>, p: int)
    reads b
    requires Square(b)
  {
    || (exists i :: 0 <= i < Size && RowOf(b, i, p))
    || (exists j :: 0 <= j < Size && ColumnOf(b, j, p))
    || DiagonalOf(b, p)
    || AntiDiagonalOf(b, p)
  }

  /** No cell is empty. */
  ghost predicate Full(b: array2<int>)
    reads b
    requires Square(b)
  {
    forall i, j :: InBounds(i, j) ==> b[i, j] != 0
  }

  /** checkWin(board, player): the rows, then the columns, then the two diagonals. */
  method CheckWin(b: array2<int>, player: int) returns (won: bool)
    requires Square(b)
    ensures won == Wins(b, player)
  {
    var i := 0;
    while i < Size
      invariant 0 <= i <= Size
      invariant forall k :: 0 <= k < i ==> !RowOf(b, k, player)
    {
      if b[i, 0] == player && b[i, 1] == player && b[i, 2] == player {
        assert RowOf(b, i, player);
        return true;
      }
      i := i + 1;
    }
    var j := 0;
    while j < Size
      invariant 0 <= j <= Size
      invariant forall k :: 0 <= k < j ==> !ColumnOf(b, k, player)
    {
      if b[0, j] == player && b[1, j] == player && b[2, j] == player {
        assert ColumnOf(b, j, player);
        return true;
      }
      j := j + 1;
    }
    if b[0, 0] == player && b[1, 1] == player && b[2, 2] == player {
      return true;
    }
    if b[0, 2] == player && b[1, 1] == player && b[2, 0] == player {
      return true;
    }
    assert !DiagonalOf(b, player) && !AntiDiagonalOf(b, player);
    return false;
  }

  /** isBoardFull(board): false at the first empty cell, row by row. */
  method IsBoardFull(b: array2<int>) returns (full: bool)
    requires Square(b)
    ensures full == Full(b)
  {
    var i := 0;
    while i < Size
      invariant 0 <= i <= Size
      invariant forall r, c :: 0 <= r < i && 0 <= c < Size ==> b[r, c] != 0
    {
      var j := 0;
      while j < Size
        invariant 0 <= j <= Size
        invariant forall c :: 0 <= c < j ==> b[i, c] != 0
      {
        if b[i, j] == 0 {
          return false;
        }
        j := j + 1;
      }
      i := i + 1;
    }
    return true;
  }

  /**
   * Turning the board a quarter turn turns its winning lines with it: `r` is
   * `b` rotated clockwise, and the same player wins on both.
   */
  lemma RotationKeepsWinner(b: array2<int>, r: array2<int>, p: int)
    requires Square(b) && Square(r)
    requires forall i, j :: InBounds(i, j) ==> r[i, j] == b[Size - 1 - j, i]
    ensures Wins(r, p) == Wins(b, p)
  {
    // each cell of `b` and where the quarter turn takes it
    assert forall i, j :: InBounds(i, j) ==> b[i, j] == r[j, Size - 1 - i] by {
      forall i, j | InBounds(i, j) ensures b[i, j] == r[j, Size - 1 - i] {
        var c := Size - 1 - i;
        assert r[j, c] == b[Size - 1 - c, j];
      }
    }
    if exists i :: 0 <= i < Size && RowOf(b, i, p) {
      var i :| 0 <= i < Size && RowOf(b, i, p);
      var c := Size - 1 - i;
      assert ColumnOf(r, c, p) by {
        forall k | 0 <= k < Size ensures r[k, c] == p {
          assert r[k, c] == b[i, k];
        }
      }
    }
    if exists j :: 0 <= j < Size && ColumnOf(b, j, p) {
      var j :| 0 <= j < Size && ColumnOf(b, j, p);
      assert RowOf(r, j, p) by {
        forall k | 0 <= k < Size ensures r[j, k] == p {
          var m := Size - 1 - k;
          assert r[j, k] == b[m, j];
        }
      }
    }
    if DiagonalOf(b, p) {
      assert AntiDiagonalOf(r, p) by {
        forall k, l | InBounds(k, l) && k + l == Size - 1 ensures r[k, l] == p {
          assert r[k, l] == b[k, k];
        }
      }
    }
    if AntiDiagonalOf(b, p) {
      assert DiagonalOf(r, p) by {
        forall k | 0 <= k < Size ensures r[k, k] == p {
          var m := Size - 1 - k;
          assert r[k, k] == b[m, k];
        }
      }
    }
    if exists i :: 0 <= i < Size && RowOf(r, i, p) {
      var i :| 0 <= i < Size && RowOf(r, i, p);
      assert ColumnOf(b, i, p) by {
        forall k | 0 <= k < Size ensures b[k, i] == p {
          var c := Size - 1 - k;
          assert b[k, i] == r[i, c];
        }
      }
    }
    if exists j :: 0 <= j < Size && ColumnOf(r, j, p) {
      var j :| 0 <= j < Size && ColumnOf(r, j, p);
      var m := Size - 1 - j;
      assert RowOf(b, m, p) by {
        forall k | 0 <= k < Size ensures b[m, k] == p {
          assert b[m, k] == r[k, j];
        }
      }
    }
    if DiagonalOf(r, p) {
      assert AntiDiagonalOf(b, p) by {
        forall k, l | InBounds(k, l) && k + l == Size - 1 ensures b[k, l] == p {
          assert b[k, l] == r[l, l];
        }
      }
    }
    if AntiDiagonalOf(r, p) {
      assert DiagonalOf(b, p) by {
        forall k | 0 <= k < Size ensures b[k, k] == p {
          var c := Size - 1 - k;
          assert b[k, k] == r[k, c];
        }
      }
    }
  }

  /** Two grids with the same cells have the same winner and are full together. */
  lemma SameCellsSameVerdict(a: array2<int>, b: array2<int>, p: int)
    requires Square(a) && Square(b)
    requires forall i, j :: InBounds(i, j) ==> a[i, j] == b[i, j]
    ensures Wins(a, p) == Wins(b, p) && Full(a) == Full(b)
  {
    assert forall i :: 0 <= i < Size ==> (RowOf(a, i, p) <==> RowOf(b, i, p));
    assert forall j :: 0 <= j < Size ==> (ColumnOf(a, j, p) <==> ColumnOf(b, j, p));
  }

  /** How a game stands after a mark by one player. */
  datatype Verdict = Won(player: int) | Drawn | Open

  /**
   * checkGameEndConditions(lastPlayer): the win is tested before the draw, so
   * a full board on which `lastPlayer` holds a line is a win.
   */
  ghost function VerdictAfter(b: array2<int>, lastPlayer: int): (v: Verdict)
    reads b
    requires Square(b)
  {
    if Wins(b, lastPlayer) then Won(lastPlayer) else if Full(b) then Drawn else Open
  }

  // ---------------------------------------------------------------------------
  // Frames
  // ---------------------------------------------------------------------------

  /** The frame onCellClicked sends: MOVE:gameId:row:col:player. */
  function MoveFrame(gameId: string, row: int, col: int, player: int): string {
    "MOVE:" + gameId + ":" + IntToString(row) + ":" + IntToString(col) + ":" + IntToString(player)
  }

  function GameOverFrame(gameId: string, winner: int): string {
    "GAME_OVER:" + gameId + ":" + IntToString(winner)
  }

  datatype Move = Move(row: int, col: int, player: int)

  /**
   * What moveReceiver takes from a MOVE frame: exactly five fields, the
   * second equal to the current game id, and three numeric fields; None when
   * any of these fails (a NumberFormatException is caught and the frame is
   * dropped).
   */
  function ParseMove(msg: string, gameId: string): (m: Option<Move>)
    ensures m.Some? ==> |Split(msg)| == 5 && Split(msg)[1] == gameId
    ensures m.Some? ==> IsInt32(m.value.row) && IsInt32(m.value.col) && IsInt32(m.value.player)
  {
    var parts := Split(msg);
    if |parts| == 5 && parts[1] == gameId then
      var row := ParseInt(parts[2]);
      var col := ParseInt(parts[3]);
      var player := ParseInt(parts[4]);
      if row.Some? && col.Some? && player.Some? then Some(Move(row.value, col.value, player.value))
      else None
    else None
  }

  /**
   * The frame a click sends is accepted by the peer's receiver under the same
   * game id and gives back the same row, column and player.
   */
  lemma MoveFrameRoundTrip(gameId: string, row: int, col: int, player: int)
    requires NoColon(gameId)
    requires IsInt32(row) && IsInt32(col) && IsInt32(player)
    ensures StartsWith(MoveFrame(gameId, row, col, player), "MOVE:")
    ensures ParseMove(MoveFrame(gameId, row, col, player), gameId) == Some(Move(row, col, player))
  {
    StartsWithFrame("MOVE:", gameId, IntToString(row), IntToString(col), IntToString(player));
    MoveFrameFields(gameId, row, col, player);
    var parts := Split(MoveFrame(gameId, row, col, player));
    ParseIntToString(row);
    ParseIntToString(col);
    ParseIntToString(player);
    assert ParseInt(parts[2]) == Some(row) && ParseInt(parts[3]) == Some(col) && ParseInt(parts[4]) == Some(player);
  }

  lemma MoveFrameFields(gameId: string, row: int, col: int, player: int)
    requires NoColon(gameId)
    ensures Split(MoveFrame(gameId, row, col, player))
         == ["MOVE", gameId, IntToString(row), IntToString(col), IntToString(player)]
  {
    var tag := "MOVE";
    assert tag + ":" == "MOVE:";
    assert NoColon(tag);
    SplitFrame5(tag, gameId, IntToString(row), IntToString(col), IntToString(player));
  }

  /** Which branch of moveReceiver a frame takes. */
  datatype Branch = MoveBranch | ResetConfirmedBranch | ExitBranch | NoBranch

  function ReceiverBranch(msg: string): (b: Branch)
    ensures b == MoveBranch <==> StartsWith(msg, "MOVE:")
    ensures b == NoBranch <==>
      !StartsWith(msg, "MOVE:") && !StartsWith(msg, "RESET_GAME_CONFIRMED:") && !StartsWith(msg, "EXIT_TICTACTOE:")
  {
    if StartsWith(msg, "MOVE:") then MoveBranch
    else if StartsWith(msg, "RESET_GAME_CONFIRMED:") then ResetConfirmedBranch
    else if StartsWith(msg, "EXIT_TICTACTOE:") then ExitBranch
    else NoBranch
  }

  // ---------------------------------------------------------------------------
  // Session
  // ---------------------------------------------------------------------------

  const YouWin := "You Win!"
  const OpponentWins := "Opponent Wins!"
  const Draw := "It's a Draw!"

  /** The result text onGameWon / onGameDraw shows for a verdict. */
  function ResultText(v: Verdict, myPlayerNumber: int): string {
    match v
    case Won(p) => if p == myPlayerNumber then YouWin else OpponentWins
    case Drawn => Draw
    case Open => ""
  }

  /** The GAME_OVER frame onGameWon / onGameDraw sends for a verdict. */
  function GameOverFrames(gameId: string, v: Verdict): seq<string> {
    match v
    case Won(p) => [GameOverFrame(gameId, p)]
    case Drawn => [GameOverFrame(gameId, 0)]
    case Open => []
  }

  /** The board differs from the one before only at (row, col), which now holds `v`. */
  twostate predicate MarkedOnly(b: array2<int>, row: int, col: int, v: int)
    reads b
    requires Square(b)
  {
    forall i, j :: InBounds(i, j) ==> b[i, j] == if i == row && j == col then v else old(b[i, j])
  }

  class Session {
    const view: BoardView
    const player1: string
    const player2: string
    const username: string
    var gameId: string
    const myPlayerNumber: int
    var isMyTurn: bool
    var initialPlayer: int
    var opponentRequestedReset: bool
    /** The text of gameResultTextView; "" while no result is shown. */
    var resultText: string
    /** The frames handed to the connection manager, in order. */
    var outbox: seq<string>
    /** finish() was called: the opponent left or the local player exited. */
    var finished: bool
    /** How many RESET_GAME_CONFIRMED frames were applied. */
    ghost var resets: nat

    /**
     * The session invariant. `opponentRequestedReset` stays false: this
     * activity has no RESET_GAME_PENDING branch, so nothing ever sets it.
     */
    ghost predicate Valid()
      reads this, view
    {
      && view.Valid()
      && IsPlayer(myPlayerNumber)
      && initialPlayer == StartingPlayer(resets)
      && !opponentRequestedReset
    }

    /**
     * onCreate with a USERNAME extra: the local player is 1 exactly when the
     * user is PLAYER1, player 1 starts, and the board is empty.
     */
    constructor (gameId: string, player1: string, player2: string, username: string)
      ensures Valid() && fresh(view) && fresh(view.board) && AllEmpty(view.board)
      ensures this.gameId == gameId && this.player1 == player1 && this.player2 == player2
      ensures this.username == username
      ensures myPlayerNumber == (if username == player1 then 1 else 2)
      ensures initialPlayer == 1 && isMyTurn == (myPlayerNumber == 1)
      ensures resultText == "" && outbox == [] && !finished && !opponentRequestedReset
    {
      view := new BoardView();
      this.gameId := gameId;
      this.player1 := player1;
      this.player2 := player2;
      this.username := username;
      var me := PlayerNumber(username, player1);
      myPlayerNumber := me;
      initialPlayer := 1;
      isMyTurn := me == 1;
      opponentRequestedReset := false;
      resultText := "";
      outbox := [];
      finished := false;
      resets := 0;
    }

    /** checkGameEndConditions without its posting: the verdict on a copy of the board. */
    method GameEndConditions(lastPlayer: int) returns (v: Verdict)
      requires Valid()
      ensures v == VerdictAfter(view.board, lastPlayer)
    {
      var board := view.GetBoardState();
      SameCellsSameVerdict(board, view.board, lastPlayer);
      var won := CheckWin(board, lastPlayer);
      if won {
        return Won(lastPlayer);
      }
      var full := IsBoardFull(board);
      if full {
        return Drawn;
      }
      return Open;
    }

    /**
     * onGameWon / onGameDraw as their posted runnables run: the first terminal
     * event shows the result, sends GAME_OVER and ends the turn; while a
     * result is shown every further one is ignored.
     */
    method ShowResult(v: Verdict)
      requires Valid() && !v.Open?
      modifies this
      ensures Valid()
      ensures old(resultText) != "" ==> unchanged(this)
      ensures old(resultText) == "" ==>
        && resultText == ResultText(v, myPlayerNumber)
        && outbox == old(outbox) + GameOverFrames(gameId, v)
        && !isMyTurn
      ensures gameId == old(gameId)
      ensures initialPlayer == old(initialPlayer) && finished == old(finished) && resets == old(resets)
    {
      if resultText == "" {
        match v
        case Won(p) =>
          resultText := if p == myPlayerNumber then YouWin else OpponentWins;
          outbox := outbox + [GameOverFrame(gameId, p)];
          isMyTurn := false;
        case Drawn =>
          resultText := Draw;
          outbox := outbox + [GameOverFrame(gameId, 0)];
          isMyTurn := false;
      }
    }

    /**
     * onCellClicked: acted on only while it is my turn and no result is shown;
     * a successful mark sends the MOVE frame, runs the end-of-game check and
     * passes the turn; a mark the board refuses changes nothing.
     */
    method OnCellClicked(row: int, col: int)
      requires Valid()
      modifies this, view.board
      ensures Valid()
      ensures var acted := old(isMyTurn) && old(resultText) == ""
                           && InBounds(row, col) && old(view.board[row, col]) == 0;
        && (!acted ==> unchanged(this) && unchanged(view.board))
        && (acted ==>
          var v := VerdictAfter(view.board, myPlayerNumber);
          && MarkedOnly(view.board, row, col, myPlayerNumber)
          && outbox == old(outbox) + [MoveFrame(gameId, row, col, myPlayerNumber)] + GameOverFrames(gameId, v)
          && resultText == ResultText(v, myPlayerNumber)
          && !isMyTurn)
      ensures gameId == old(gameId)
      ensures initialPlayer == old(initialPlayer) && finished == old(finished) && resets == old(resets)
    {
      if isMyTurn && resultText == "" {
        var marked := view.MarkCell(row, col, myPlayerNumber);
        if marked {
          outbox := outbox + [MoveFrame(gameId, row, col, myPlayerNumber)];
          var v := GameEndConditions(myPlayerNumber);
          isMyTurn := false;
          if !v.Open? {
            ShowResult(v);
          }
        }
      }
    }

    /**
     * moveReceiver, MOVE branch. A frame that does not parse under the current
     * game id, or whose mark the board refuses, changes nothing. Otherwise the
     * mark is placed and the turn goes to me exactly when the mover was the
     * opponent — unless the move ended the game while no result was shown:
     * then the posted onGameWon / onGameDraw runs afterwards, shows the result,
     * sends GAME_OVER and ends my turn. The receiver acts whether or not a
     * result is already shown and whatever the turn.
     */
    method ReceiveMove(msg: string)
      requires Valid() && ReceiverBranch(msg) == MoveBranch
      modifies this, view.board
      ensures Valid()
      ensures var m := ParseMove(msg, old(gameId));
        var acted := m.Some? && InBounds(m.value.row, m.value.col)
                     && old(view.board[m.value.row, m.value.col]) == 0;
        && (!acted ==> unchanged(this) && unchanged(view.board))
        && (acted ==>
          var p := m.value.player;
          var v := VerdictAfter(view.board, p);
          && MarkedOnly(view.board, m.value.row, m.value.col, p)
          && (if v.Open? || old(resultText) != "" then
                isMyTurn == (p != myPlayerNumber) && resultText == old(resultText) && outbox == old(outbox)
              else
                !isMyTurn && resultText == ResultText(v, myPlayerNumber)
                && outbox == old(outbox) + GameOverFrames(gameId, v)))
      ensures gameId == old(gameId)
      ensures initialPlayer == old(initialPlayer) && finished == old(finished) && resets == old(resets)
    {
      var m := ParseMove(msg, gameId);
      if m.Some? {
        var Move(row, col, player) := m.value;
        // the runnable posted by the receiver
        var marked := view.MarkCell(row, col, player);
        if marked {
          var v := GameEndConditions(player);
          isMyTurn := player != myPlayerNumber;
          // the runnable posted by onGameWon / onGameDraw, which runs next
          if !v.Open? {
            ShowResult(v);
          }
        }
      }
    }

    /**
     * handleResetConfirmed: with at least two fields, adopts field 1 as the
     * game id without checking it, clears the board, the result and the
     * pending-reset flag, hands the first move to the other player and gives
     * me the turn exactly when I am that player.
     */
    method ReceiveResetConfirmed(msg: string)
      requires Valid() && ReceiverBranch(msg) == ResetConfirmedBranch
      modifies this, view.board
      ensures Valid()
      ensures |Split(msg)| < 2 ==> unchanged(this) && unchanged(view.board)
      ensures |Split(msg)| >= 2 ==>
        && gameId == Split(msg)[1]
        && AllEmpty(view.board)
        && resultText == ""
        && !opponentRequestedReset
        && initialPlayer == Toggle(old(initialPlayer))
        && isMyTurn == (myPlayerNumber == initialPlayer)
        && resets == old(resets) + 1
        && outbox == old(outbox) && finished == old(finished)
    {
      var parts := Split(msg);
      if |parts| >= 2 {
        ApplyReset(parts[1]);
      }
    }

    /**
     * The body of handleResetConfirmed once the frame has two fields: a new
     * game id, an empty board, no result, no pending request, and the first
     * move handed to the other player.
     */
    method ApplyReset(newGameId: string)
      requires Valid()
      modifies this, view.board
      ensures Valid()
      ensures gameId == newGameId && AllEmpty(view.board) && resultText == "" && !opponentRequestedReset
      ensures initialPlayer == Toggle(old(initialPlayer)) && isMyTurn == (myPlayerNumber == initialPlayer)
      ensures resets == old(resets) + 1 && outbox == old(outbox) && finished == old(finished)
    {
      var next := if initialPlayer == 1 then 2 else 1;
      view.ResetBoard();
      gameId, resultText, opponentRequestedReset := newGameId, "", false;
      initialPlayer, isMyTurn, resets := next, myPlayerNumber == next, resets + 1;
    }

    /** moveReceiver, EXIT_TICTACTOE branch: the opponent left this game, so the screen finishes. */
    method ReceiveExit(msg: string)
      requires Valid() && ReceiverBranch(msg) == ExitBranch
      modifies this
      ensures Valid()
      ensures var parts := Split(msg);
        if |parts| == 2 && parts[1] == old(gameId) then finished
        else unchanged(this)
      ensures finished == (old(finished) || (|Split(msg)| == 2 && Split(msg)[1] == old(gameId)))
      ensures isMyTurn == old(isMyTurn) && resultText == old(resultText) && outbox == old(outbox)
      ensures gameId == old(gameId) && initialPlayer == old(initialPlayer)
    {
      var parts := Split(msg);
      if |parts| == 2 && parts[1] == gameId {
        finished := true;
      }
    }

    /**
     * The reset button: sends RESET_GAME_REQUEST for this game. Its other
     * branch, taken when the opponent had requested a reset, cannot be reached
     * because the flag is never set.
     */
    method ResetButton()
      requires Valid()
      modifies this
      ensures Valid()
      ensures outbox == old(outbox) + ["RESET_GAME_REQUEST:" + gameId]
      ensures !opponentRequestedReset
      ensures gameId == old(gameId) && isMyTurn == old(isMyTurn) && resultText == old(resultText)
      ensures initialPlayer == old(initialPlayer) && finished == old(finished) && resets == old(resets)
    {
      outbox := outbox + ["RESET_GAME_REQUEST:" + gameId];
    }

    /** The exit button: announces EXIT_TICTACTOE for this game and finishes. */
    method ExitButton()
      requires Valid()
      modifies this
      ensures Valid()
      ensures outbox == old(outbox) + ["EXIT_TICTACTOE:" + gameId] && finished
      ensures gameId == old(gameId) && isMyTurn == old(isMyTurn) && resultText == old(resultText)
      ensures initialPlayer == old(initialPlayer) && resets == old(resets)
    {
      outbox := outbox + ["EXIT_TICTACTOE:" + gameId];
      finished := true;
    }
  }

  /**
   * After k confirmed resets of a session that started with player 1, the
   * starting player is 1 for even k and 2 for odd k.
   */
  lemma ResetAlternation(s: Session)
    requires s.Valid()
    ensures s.initialPlayer == if s.resets % 2 == 0 then 1 else 2
  {
    StartingPlayerParity(s.resets);
  }
}
