/**
 * FourInARowActivity: the win test (four in a row through the last chip,
 * counted outward along each of the four axes), the draw test, and the
 * session driven by local moves and by MOVE4, GAME_OVER4, EXIT_FOURINAROW,
 * RESET_GAME_PENDING and RESET_GAME_CONFIRMED frames.
 */
module FourInARowGame {
  import opened JavaLang
  import opened Turns
  import opened FourInARowBoard

  // ---------------------------------------------------------------------------
  // Counting along a direction
  // ---------------------------------------------------------------------------

  /** One of the eight unit steps of countDirection. */
  predicate IsDirection(dr: int, dc: int) {
    -1 <= dr <= 1 && -1 <= dc <= 1 && (dr != 0 || dc != 0)
  }

  /** `i` steps of size `d` for d in {-1, 0, 1}. */
  function Step(i: int, d: int): int
    requires -1 <= d <= 1
  {
    if d == 1 then i else if d == -1 then -i else 0
  }

  /** The cell (r, c) is on the grid and holds `p`. */
  ghost predicate Holds(b: array2<int>, r: int, c: int, p: int)
    reads b
    requires Shaped(b)
  {
    InGrid(r, c) && b[r, c] == p
  }

  /** The cell `i` steps from (row, col) in direction (dr, dc) holds `p`. */
  ghost predicate At(b: array2<int>, row: int, col: int, dr: int, dc: int, i: int, p: int)
    reads b
    requires Shaped(b) && IsDirection(dr, dc)
  {
    Holds(b, row + Step(i, dr), col + Step(i, dc), p)
  }

  /** How many grid cells are left from (r, c) going in direction (dr, dc), (r, c) included. */
  function Remaining(r: int, c: int, dr: int, dc: int): nat
    requires IsDirection(dr, dc)
  {
    if !InGrid(r, c) then 0
    else if dr == 1 then Rows - r
    else if dr == -1 then r + 1
    else if dc == 1 then Cols - c
    else c + 1
  }

  /** The number of consecutive cells holding `p` from (r, c) on, in direction (dr, dc). */
  ghost function RunFrom(b: array2<int>, r: int, c: int, dr: int, dc: int, p: int): nat
    reads b
    requires Shaped(b) && IsDirection(dr, dc)
    decreases Remaining(r, c, dr, dc)
  {
    if Holds(b, r, c, p) then 1 + RunFrom(b, r + dr, c + dc, dr, dc, p) else 0
  }

  /**
   * countDirection: the length of the run of `player` chips next to
   * (row, col) in direction (dRow, dCol), the cell itself not counted.
   */
  method CountDirection(b: array2<int>, row: int, col: int, dRow: int, dCol: int, player: int)
    returns (count: int)
    requires Shaped(b) && IsDirection(dRow, dCol)
    ensures count == RunFrom(b, row + dRow, col + dCol, dRow, dCol, player)
    ensures InGrid(row, col) ==> 0 <= count <= Cols - 1
  {
    RunWithinGrid(b, row + dRow, col + dCol, dRow, dCol, player);
    count := 0;
    var r, c := row + dRow, col + dCol;
    while 0 <= r < Rows && 0 <= c < Cols && b[r, c] == player
      invariant count + RunFrom(b, r, c, dRow, dCol, player) == RunFrom(b, row + dRow, col + dCol, dRow, dCol, player)
      decreases Remaining(r, c, dRow, dCol)
    {
      count := count + 1;
      r, c := r + dRow, c + dCol;
    }
  }

  /**
   * A run never leaves the grid: it is no longer than the cells left in its
   * direction, so from next to a grid cell it is at most 6 long.
   */
  lemma {:induction false} RunWithinGrid(b: array2<int>, r: int, c: int, dr: int, dc: int, p: int)
    requires Shaped(b) && IsDirection(dr, dc)
    ensures RunFrom(b, r, c, dr, dc, p) <= Remaining(r, c, dr, dc)
    ensures InGrid(r - dr, c - dc) ==> RunFrom(b, r, c, dr, dc, p) <= Cols - 1
    decreases Remaining(r, c, dr, dc)
  {
    if Holds(b, r, c, p) {
      RunWithinGrid(b, r + dr, c + dc, dr, dc, p);
    }
  }

  /** Within a run that starts next to (row, col), the i-th cell out holds `p`. */
  lemma {:induction false} RunCell(b: array2<int>, row: int, col: int, dr: int, dc: int, p: int, i: int)
    requires Shaped(b) && IsDirection(dr, dc)
    requires 1 <= i <= RunFrom(b, row + dr, col + dc, dr, dc, p)
    ensures At(b, row, col, dr, dc, i, p)
    decreases i
  {
    var r1, c1 := row + dr, col + dc;
    if i > 1 {
      RunCell(b, r1, c1, dr, dc, p, i - 1);
      assert r1 + Step(i - 1, dr) == row + Step(i, dr);
      assert c1 + Step(i - 1, dc) == col + Step(i, dc);
    }
  }

  /** When the n cells next to (row, col) all hold `p`, the run from there is at least n long. */
  lemma {:induction false} RunReaches(b: array2<int>, row: int, col: int, dr: int, dc: int, p: int, n: nat)
    requires Shaped(b) && IsDirection(dr, dc)
    requires forall i :: 1 <= i <= n ==> At(b, row, col, dr, dc, i, p)
    ensures RunFrom(b, row + dr, col + dc, dr, dc, p) >= n
    decreases n
  {
    if n > 0 {
      var r1, c1 := row + dr, col + dc;
      assert At(b, row, col, dr, dc, 1, p);
      forall k | 1 <= k <= n - 1 ensures At(b, r1, c1, dr, dc, k, p) {
        var i := k + 1;
        assert At(b, row, col, dr, dc, i, p);
        assert r1 + Step(k, dr) == row + Step(i, dr);
        assert c1 + Step(k, dc) == col + Step(i, dc);
      }
      RunReaches(b, r1, c1, dr, dc, p, n - 1);
    }
  }

  // ---------------------------------------------------------------------------
  // Four in a row
  // ---------------------------------------------------------------------------

  /**
   * The chips counted on both sides of (row, col) along the axis (dr, dc);
   * its two terms swap under (dr, dc) := (-dr, -dc), so an axis gives the
   * same total counted from either end.
   */
  ghost function AxisCount(b: array2<int>, row: int, col: int, dr: int, dc: int, p: int): nat
    reads b
    requires Shaped(b) && IsDirection(dr, dc)
  {
    RunFrom(b, row - dr, col - dc, -dr, -dc, p) + RunFrom(b, row + dr, col + dc, dr, dc, p)
  }

  /** What hasFourConnected tests: more than two neighbours of `p` along some axis. */
  ghost predicate FourConnected(b: array2<int>, row: int, col: int, p: int)
    reads b
    requires Shaped(b)
  {
    || AxisCount(b, row, col, 1, 0, p) > 2
    || AxisCount(b, row, col, 0, 1, p) > 2
    || AxisCount(b, row, col, 1, 1, p) > 2
    || AxisCount(b, row, col, 1, -1, p) > 2
  }

  /** The four cells from offset lo to lo + 3 along (dr, dc) from (row, col) all hold `p`. */
  ghost predicate FourFrom(b: array2<int>, row: int, col: int, dr: int, dc: int, lo: int, p: int)
    reads b
    requires Shaped(b) && IsDirection(dr, dc)
  {
    forall i :: lo <= i < lo + 4 ==> At(b, row, col, dr, dc, i, p)
  }

  /** Four consecutive chips of `p` on the axis (dr, dc), one of them at (row, col). */
  ghost predicate LineOnAxis(b: array2<int>, row: int, col: int, dr: int, dc: int, p: int)
    reads b
    requires Shaped(b) && IsDirection(dr, dc)
  {
    exists lo :: -3 <= lo <= 0 && FourFrom(b, row, col, dr, dc, lo, p)
  }

  /** Four consecutive chips of `p` in a row, column or diagonal through (row, col). */
  ghost predicate FourInALine(b: array2<int>, row: int, col: int, p: int)
    reads b
    requires Shaped(b)
  {
    || LineOnAxis(b, row, col, 1, 0, p)
    || LineOnAxis(b, row, col, 0, 1, p)
    || LineOnAxis(b, row, col, 1, 1, p)
    || LineOnAxis(b, row, col, 1, -1, p)
  }

  /** hasFourConnected, evaluated left to right with Java's short-circuit `||`. */
  method HasFourConnected(b: array2<int>, row: int, col: int, player: int) returns (r: bool)
    requires Shaped(b)
    ensures r == FourConnected(b, row, col, player)
  {
    var up := CountDirection(b, row, col, -1, 0, player);
    var down := CountDirection(b, row, col, 1, 0, player);
    if up + down > 2 {
      return true;
    }
    var left := CountDirection(b, row, col, 0, -1, player);
    var right := CountDirection(b, row, col, 0, 1, player);
    if left + right > 2 {
      return true;
    }
    var upLeft := CountDirection(b, row, col, -1, -1, player);
    var downRight := CountDirection(b, row, col, 1, 1, player);
    if upLeft + downRight > 2 {
      return true;
    }
    var upRight := CountDirection(b, row, col, -1, 1, player);
    var downLeft := CountDirection(b, row, col, 1, -1, player);
    return upRight + downLeft > 2;
  }

  /**
   * On one axis, with `p` at (row, col): more than two neighbours counted
   * outward exactly when four consecutive chips of `p` cover (row, col).
   */
  lemma {:induction false} AxisCountIffLine(b: array2<int>, row: int, col: int, dr: int, dc: int, p: int)
    requires Shaped(b) && IsDirection(dr, dc) && InGrid(row, col) && b[row, col] == p
    ensures AxisCount(b, row, col, dr, dc, p) > 2 <==> LineOnAxis(b, row, col, dr, dc, p)
  {
    if AxisCount(b, row, col, dr, dc, p) > 2 {
      CountGivesLine(b, row, col, dr, dc, p);
    }
    if LineOnAxis(b, row, col, dr, dc, p) {
      var lo :| -3 <= lo <= 0 && FourFrom(b, row, col, dr, dc, lo, p);
      LineGivesCount(b, row, col, dr, dc, p, lo);
    }
  }

  lemma {:induction false} CountGivesLine(b: array2<int>, row: int, col: int, dr: int, dc: int, p: int)
    requires Shaped(b) && IsDirection(dr, dc) && InGrid(row, col) && b[row, col] == p
    requires AxisCount(b, row, col, dr, dc, p) > 2
    ensures LineOnAxis(b, row, col, dr, dc, p)
  {
    var back := RunFrom(b, row - dr, col - dc, -dr, -dc, p);
    var fwd := RunFrom(b, row + dr, col + dc, dr, dc, p);
    var lo: int := if back < 3 then -(back as int) else -3;
    assert lo + 3 <= fwd;
    forall i | lo <= i < lo + 4 ensures At(b, row, col, dr, dc, i, p) {
      AxisCell(b, row, col, dr, dc, p, i);
    }
    assert FourFrom(b, row, col, dr, dc, lo, p);
  }

  /** Every cell between the two ends of the counted runs, the centre included, holds `p`. */
  lemma {:induction false} AxisCell(b: array2<int>, row: int, col: int, dr: int, dc: int, p: int, i: int)
    requires Shaped(b) && IsDirection(dr, dc) && InGrid(row, col) && b[row, col] == p
    requires -(RunFrom(b, row - dr, col - dc, -dr, -dc, p) as int) <= i <= RunFrom(b, row + dr, col + dc, dr, dc, p)
    ensures At(b, row, col, dr, dc, i, p)
  {
    if i < 0 {
      // a cell behind (row, col) is a cell at a negative offset
      RunCell(b, row, col, -dr, -dc, p, -i);
      assert Step(-i, -dr) == Step(i, dr) && Step(-i, -dc) == Step(i, dc);
    } else if i > 0 {
      RunCell(b, row, col, dr, dc, p, i);
    } else {
      assert Step(0, dr) == 0 && Step(0, dc) == 0;
    }
  }

  lemma {:induction false} LineGivesCount(b: array2<int>, row: int, col: int, dr: int, dc: int, p: int, lo: int)
    requires Shaped(b) && IsDirection(dr, dc)
    requires -3 <= lo <= 0 && FourFrom(b, row, col, dr, dc, lo, p)
    ensures AxisCount(b, row, col, dr, dc, p) > 2
  {
    var br, bc := -dr, -dc;
    forall j | 1 <= j <= -lo ensures At(b, row, col, br, bc, j, p) {
      var i := -j;
      assert At(b, row, col, dr, dc, i, p);
      assert Step(j, br) == Step(i, dr) && Step(j, bc) == Step(i, dc);
    }
    RunReaches(b, row, col, br, bc, p, -lo);
    forall i | 1 <= i <= lo + 3 ensures At(b, row, col, dr, dc, i, p) {
      assert lo <= i < lo + 4;
    }
    RunReaches(b, row, col, dr, dc, p, lo + 3);
  }

  /**
   * hasFourConnected is exact for the chip just placed: with `p` at
   * (row, col), it answers true if and only if (row, col) lies in four
   * consecutive chips of `p` in a row, a column or a diagonal.
   */
  lemma FourConnectedIffLine(b: array2<int>, row: int, col: int, p: int)
    requires Shaped(b) && InGrid(row, col) && b[row, col] == p
    ensures FourConnected(b, row, col, p) <==> FourInALine(b, row, col, p)
  {
    AxisCountIffLine(b, row, col, 1, 0, p);
    AxisCountIffLine(b, row, col, 0, 1, p);
    AxisCountIffLine(b, row, col, 1, 1, p);
    AxisCountIffLine(b, row, col, 1, -1, p);
  }

  /** No empty cell is left. */
  ghost predicate Full(b: array2<int>)
    reads b
    requires Shaped(b)
  {
    forall i, j :: InGrid(i, j) ==> b[i, j] != 0
  }

  /** isDraw: false at the first empty cell, row by row. */
  method IsDraw(b: array2<int>) returns (draw: bool)
    requires Shaped(b)
    ensures draw == Full(b)
  {
    var i := 0;
    while i < Rows
      invariant 0 <= i <= Rows
      invariant forall r, c :: 0 <= r < i && 0 <= c < Cols ==> b[r, c] != 0
    {
      var j := 0;
      while j < Cols
        invariant 0 <= j <= Cols
        invariant forall c :: 0 <= c < j ==> b[i, c] != 0
      {
        if b[i, j] == 0 {
          return false;
        }
        j := j + 1;
      }
      i := i + 1;
    }
    return true;
  }

  // ---------------------------------------------------------------------------
  // Frames
  // ---------------------------------------------------------------------------

  function MoveFrame(gameId: string, row: int, col: int, player: int): string {
    "MOVE4:" + gameId + ":" + IntToString(row) + ":" + IntToString(col) + ":" + IntToString(player)
  }

  function GameOverFrame(gameId: string, winner: int): string {
    "GAME_OVER4:" + gameId + ":" + IntToString(winner)
  }

  /** Which branch of moveReceiver or resetReceiver a chat_message frame takes. */
  datatype Route = MoveRoute | GameOverRoute | ExitRoute | PendingRoute | ConfirmedRoute | NoRoute

  /** A string cannot start with two prefixes that differ at a position both cover. */
  lemma {:induction false} PrefixesClash(s: string, a: string, b: string, k: nat)
    requires k < |a| && k < |b| && a[k] != b[k]
    ensures !(StartsWith(s, a) && StartsWith(s, b))
  {
  }

  /**
   * The two receivers both listen to chat_message: moveReceiver tests MOVE4,
   * GAME_OVER4 and EXIT_FOURINAROW in turn, resetReceiver RESET_GAME_PENDING
   * and RESET_GAME_CONFIRMED; no frame starts with two of these prefixes, so
   * at most one branch runs.
   */
  function RouteOf(msg: string): (r: Route)
    ensures r == MoveRoute <==> StartsWith(msg, "MOVE4:")
    ensures r == GameOverRoute <==> StartsWith(msg, "GAME_OVER4:")
    ensures r == ExitRoute <==> StartsWith(msg, "EXIT_FOURINAROW:")
    ensures r == PendingRoute <==> StartsWith(msg, "RESET_GAME_PENDING:")
    ensures r == ConfirmedRoute <==> StartsWith(msg, "RESET_GAME_CONFIRMED:")
  {
    var move, over, exit, pending, confirmed :=
      "MOVE4:", "GAME_OVER4:", "EXIT_FOURINAROW:", "RESET_GAME_PENDING:", "RESET_GAME_CONFIRMED:";
    PrefixesClash(msg, move, over, 0);
    PrefixesClash(msg, move, exit, 0);
    PrefixesClash(msg, move, pending, 0);
    PrefixesClash(msg, move, confirmed, 0);
    PrefixesClash(msg, over, exit, 0);
    PrefixesClash(msg, over, pending, 0);
    PrefixesClash(msg, over, confirmed, 0);
    PrefixesClash(msg, exit, pending, 0);
    PrefixesClash(msg, exit, confirmed, 0);
    PrefixesClash(msg, pending, confirmed, 11);
    if StartsWith(msg, "MOVE4:") then MoveRoute
    else if StartsWith(msg, "GAME_OVER4:") then GameOverRoute
    else if StartsWith(msg, "EXIT_FOURINAROW:") then ExitRoute
    else if StartsWith(msg, "RESET_GAME_PENDING:") then PendingRoute
    else if StartsWith(msg, "RESET_GAME_CONFIRMED:") then ConfirmedRoute
    else NoRoute
  }

  /** The MOVE4 frame a local move sends is read back by the peer's moveReceiver. */
  lemma MoveFrameRoundTrip(gameId: string, row: int, col: int, player: int)
    requires NoColon(gameId)
    requires IsInt32(row) && IsInt32(col) && IsInt32(player)
    ensures StartsWith(MoveFrame(gameId, row, col, player), "MOVE4:")
    ensures var parts := Split(MoveFrame(gameId, row, col, player));
      && |parts| == 5 && parts[1] == gameId
      && ParseInt(parts[2]) == Some(row) && ParseInt(parts[3]) == Some(col) && ParseInt(parts[4]) == Some(player)
  {
    StartsWithFrame("MOVE4:", gameId, IntToString(row), IntToString(col), IntToString(player));
    MoveFrameFields(gameId, row, col, player);
    ParseIntToString(row);
    ParseIntToString(col);
    ParseIntToString(player);
  }

  lemma MoveFrameFields(gameId: string, row: int, col: int, player: int)
    requires NoColon(gameId)
    ensures Split(MoveFrame(gameId, row, col, player))
         == ["MOVE4", gameId, IntToString(row), IntToString(col), IntToString(player)]
  {
    var tag := "MOVE4";
    assert tag + ":" == "MOVE4:";
    assert NoColon(tag);
    SplitFrame5(tag, gameId, IntToString(row), IntToString(col), IntToString(player));
  }

  /** The GAME_OVER4 frame checkWin sends is read back by the peer's moveReceiver. */
  lemma GameOverFrameRoundTrip(gameId: string, winner: int)
    requires NoColon(gameId) && IsInt32(winner)
    ensures StartsWith(GameOverFrame(gameId, winner), "GAME_OVER4:")
    ensures var parts := Split(GameOverFrame(gameId, winner));
      |parts| == 3 && parts[1] == gameId && ParseInt(parts[2]) == Some(winner)
  {
    StartsWithFrame2("GAME_OVER4:", gameId, IntToString(winner));
    assert "GAME_OVER4:" + gameId == "GAME_OVER4" + ":" + gameId;
    assert NoColon("GAME_OVER4");
    SplitFrame3("GAME_OVER4", gameId, IntToString(winner));
    ParseIntToString(winner);
  }

  // ---------------------------------------------------------------------------
  // Session
  // ---------------------------------------------------------------------------

  const YourTurn := "Your turn"
  const OpponentsTurn := "Opponent's turn"
  const YouWon := "You won!"
  const OpponentWon := "Opponent won!"
  const ItsADraw := "It's a draw!"
  const StatsUrl := "http://51.21.214.199/update_stats.php"

  /** updateStatus: the turn line. */
  function TurnText(isMyTurn: bool): string {
    if isMyTurn then YourTurn else OpponentsTurn
  }

  /** The status line after a confirmed reset. */
  function ResetText(isMyTurn: bool): string {
    "Game reset! " + (if isMyTurn then YourTurn else OpponentsTurn)
  }

  /** The text shown for the winner field of a GAME_OVER4 frame (0 is a draw). */
  function OutcomeText(winner: int, myPlayerNumber: int): string {
    if winner == 0 then ItsADraw else if winner == myPlayerNumber then YouWon else OpponentWon
  }

  /** The result field updateStats posts for a winner field. */
  function StatsResult(winner: int, myPlayerNumber: int): string {
    if winner == 0 then "draw" else if winner == myPlayerNumber then "win" else "loss"
  }

  /** One POST to update_stats.php with the parameters username, game_type and result. */
  datatype StatsRequest = StatsRequest(url: string, username: string, gameType: string, result: string)

  /** How a receiver invocation ended. */
  datatype Reception =
    | Handled   // the frame was for this game and was applied
    | Ignored   // wrong field count or another game id
    | Crash     // an uncaught NumberFormatException or ArrayIndexOutOfBoundsException

  class Session {
    const view: BoardView
    const player1: string
    const player2: string
    const username: string
    var gameId: string
    const myPlayerNumber: int
    var isMyTurn: bool
    var opponentRequestedReset: bool
    var initialPlayer: int
    var gameEnded: bool
    /** The text of statusTextView. */
    var status: string
    /** The frames handed to ServerConnectionManager.sendMessage, in order. */
    var outbox: seq<string>
    /** The update_stats.php requests queued, in order. */
    var statsRequests: seq<StatsRequest>
    var finished: bool
    ghost var resets: nat
    /** Games that ended (a GAME_OVER4 was applied) and were then reset. */
    ghost var closedGames: nat

    /**
     * The session invariant: the board keeps its shape, the starting player
     * alternates with each confirmed reset, and exactly one stats request was
     * queued for every game that ended.
     */
    ghost predicate Valid()
      reads this, view
    {
      && view.Valid()
      && IsPlayer(myPlayerNumber)
      && initialPlayer == StartingPlayer(resets)
      && |statsRequests| == closedGames + (if gameEnded then 1 else 0)
    }

    /** onCreate: the local player is 1 exactly when the user is PLAYER1, and player 1 moves first. */
    constructor (gameId: string, player1: string, player2: string, username: string)
      ensures Valid() && fresh(view) && fresh(view.board) && Empty(view.board)
      ensures this.gameId == gameId && this.player1 == player1 && this.player2 == player2
      ensures this.username == username
      ensures myPlayerNumber == (if username == player1 then 1 else 2)
      ensures isMyTurn == (myPlayerNumber == 1) && status == TurnText(isMyTurn)
      ensures initialPlayer == 1 && !gameEnded && !opponentRequestedReset
      ensures outbox == [] && statsRequests == [] && !finished
    {
      view := new BoardView();
      this.gameId := gameId;
      this.player1 := player1;
      this.player2 := player2;
      this.username := username;
      var me := PlayerNumber(username, player1);
      myPlayerNumber := me;
      isMyTurn := me == 1;
      status := TurnText(me == 1);
      opponentRequestedReset := false;
      initialPlayer := 1;
      gameEnded := false;
      outbox := [];
      statsRequests := [];
      finished := false;
      resets := 0;
      closedGames := 0;
    }

    /**
     * checkWin(lastRow, lastCol, player): skipped once the game has ended;
     * otherwise a four through the last chip sends GAME_OVER4 with the player
     * and ends my turn, and failing that a full board sends GAME_OVER4 with 0.
     * It does not set gameEnded.
     */
    method CheckWin(lastRow: int, lastCol: int, player: int)
      requires Valid()
      modifies this
      ensures Valid()
      ensures old(gameEnded) ==> unchanged(this)
      ensures !old(gameEnded) ==>
        if FourConnected(view.board, lastRow, lastCol, player) then
          && outbox == old(outbox) + [GameOverFrame(gameId, player)]
          && status == (if player == myPlayerNumber then YouWon else OpponentWon)
          && !isMyTurn
        else if Full(view.board) then
          outbox == old(outbox) + [GameOverFrame(gameId, 0)] && status == ItsADraw && isMyTurn == old(isMyTurn)
        else
          outbox == old(outbox) && status == old(status) && isMyTurn == old(isMyTurn)
      ensures gameEnded == old(gameEnded) && gameId == old(gameId) && statsRequests == old(statsRequests)
      ensures initialPlayer == old(initialPlayer) && opponentRequestedReset == old(opponentRequestedReset)
      ensures finished == old(finished) && resets == old(resets) && closedGames == old(closedGames)
    {
      if gameEnded {
        return;
      }
      var board := view.GetBoard();
      var four := HasFourConnected(board, lastRow, lastCol, player);
      if four {
        outbox := outbox + [GameOverFrame(gameId, player)];
        status := if player == myPlayerNumber then YouWon else OpponentWon;
        isMyTurn := false;
      } else {
        var draw := IsDraw(board);
        if draw {
          outbox := outbox + [GameOverFrame(gameId, 0)];
          status := ItsADraw;
        }
      }
    }

    /**
     * onMoveMade: ignored unless it is my turn and the game has not ended. The
     * chip is mine whatever player the view reported; once placed, the MOVE4
     * frame goes out before checkWin's GAME_OVER4, the turn passes and the
     * status line is overwritten with the turn text, the result text too.
     */
    method OnMoveMade(row: int, col: int, player: int)
      requires Valid() && InGrid(row, col)
      modifies this, view.board
      ensures Valid()
      ensures var acted := old(isMyTurn) && !old(gameEnded) && old(view.board[row, col]) == 0;
        && (!acted ==> unchanged(this) && unchanged(view.board))
        && (acted ==>
          var b := view.board;
          var me := myPlayerNumber;
          && (forall i, j :: InGrid(i, j) ==> b[i, j] == if i == row && j == col then me else old(b[i, j]))
          && outbox == old(outbox) + [MoveFrame(gameId, row, col, me)]
             + (if FourConnected(b, row, col, me) then [GameOverFrame(gameId, me)]
                else if Full(b) then [GameOverFrame(gameId, 0)] else [])
          && !isMyTurn && status == OpponentsTurn)
      ensures gameEnded == old(gameEnded) && gameId == old(gameId) && statsRequests == old(statsRequests)
      ensures initialPlayer == old(initialPlayer) && finished == old(finished)
      ensures opponentRequestedReset == old(opponentRequestedReset) && resets == old(resets) && closedGames == old(closedGames)
    {
      if !isMyTurn || gameEnded {
        return;
      }
      var placed := view.PlaceChip(row, col, myPlayerNumber);
      if placed {
        outbox := outbox + [MoveFrame(gameId, row, col, myPlayerNumber)];
        CheckWin(row, col, myPlayerNumber);
        isMyTurn := false;
        status := TurnText(isMyTurn);
      }
    }

    /**
     * The runnable moveReceiver posts for a MOVE4 frame: the chip is placed
     * if its cell is empty, checkWin runs on that cell either way, and the
     * turn is mine exactly when the mover was the opponent — even after a
     * winning move.
     */
    method ApplyMove(row: int, col: int, player: int)
      requires Valid() && InGrid(row, col)
      modifies this, view.board
      ensures Valid()
      ensures forall i, j :: InGrid(i, j) ==>
        view.board[i, j] == if i == row && j == col && old(view.board[row, col]) == 0 then player else old(view.board[i, j])
      ensures isMyTurn == (player != myPlayerNumber) && status == TurnText(isMyTurn)
      ensures outbox == old(outbox)
        + (if old(gameEnded) then []
           else if FourConnected(view.board, row, col, player) then [GameOverFrame(gameId, player)]
           else if Full(view.board) then [GameOverFrame(gameId, 0)] else [])
      ensures gameEnded == old(gameEnded) && gameId == old(gameId) && statsRequests == old(statsRequests)
      ensures initialPlayer == old(initialPlayer) && finished == old(finished)
      ensures opponentRequestedReset == old(opponentRequestedReset) && resets == old(resets) && closedGames == old(closedGames)
    {
      var _ := view.PlaceChip(row, col, player);
      CheckWin(row, col, player);
      isMyTurn := player != myPlayerNumber;
      status := TurnText(isMyTurn);
    }

    /**
     * moveReceiver, MOVE4 branch: a frame with the wrong field count or game
     * id is ignored; a number that does not parse, or a cell off the grid,
     * crashes the activity; any other frame runs ApplyMove.
     */
    method ReceiveMove(msg: string) returns (r: Reception)
      requires Valid() && RouteOf(msg) == MoveRoute
      modifies this, view.board
      ensures Valid()
      ensures var parts := Split(msg);
        r == (if |parts| != 5 || parts[1] != old(gameId) then Ignored
              else if ParseInt(parts[2]).None? || ParseInt(parts[3]).None? || ParseInt(parts[4]).None? then Crash
              else if !InGrid(ParseInt(parts[2]).value, ParseInt(parts[3]).value) then Crash
              else Handled)
      ensures r != Handled ==> unchanged(this) && unchanged(view.board)
      ensures r == Handled ==>
        var parts := Split(msg);
        var row, col, p := ParseInt(parts[2]).value, ParseInt(parts[3]).value, ParseInt(parts[4]).value;
        && (forall i, j :: InGrid(i, j) ==>
              view.board[i, j] == if i == row && j == col && old(view.board[row, col]) == 0 then p else old(view.board[i, j]))
        && isMyTurn == (p != myPlayerNumber)
        && status == TurnText(isMyTurn)
        && outbox == old(outbox)
           + (if old(gameEnded) then []
              else if FourConnected(view.board, row, col, p) then [GameOverFrame(gameId, p)]
              else if Full(view.board) then [GameOverFrame(gameId, 0)] else [])
      ensures gameEnded == old(gameEnded) && gameId == old(gameId) && statsRequests == old(statsRequests)
      ensures initialPlayer == old(initialPlayer) && finished == old(finished)
      ensures opponentRequestedReset == old(opponentRequestedReset) && resets == old(resets) && closedGames == old(closedGames)
    {
      var parts := Split(msg);
      if |parts| != 5 || parts[1] != gameId {
        return Ignored;
      }
      var row, col, player := ParseInt(parts[2]), ParseInt(parts[3]), ParseInt(parts[4]);
      if row.None? || col.None? || player.None? {
        return Crash;
      }
      if !InGrid(row.value, col.value) {
        return Crash;
      }
      ApplyMove(row.value, col.value, player.value);
      return Handled;
    }

    /**
     * moveReceiver, GAME_OVER4 branch: the first one for this game ends it,
     * shows the outcome, ends my turn and queues one stats request; any later
     * one changes nothing until the next reset.
     */
    method ReceiveGameOver(msg: string) returns (r: Reception)
      requires Valid() && RouteOf(msg) == GameOverRoute
      modifies this
      ensures Valid()
      ensures var parts := Split(msg);
        r == (if |parts| != 3 || parts[1] != old(gameId) then Ignored
              else if ParseInt(parts[2]).None? then Crash
              else Handled)
      ensures r != Handled || old(gameEnded) ==> unchanged(this)
      ensures r == Handled && !old(gameEnded) ==>
        var w := ParseInt(Split(msg)[2]).value;
        && gameEnded && !isMyTurn
        && status == OutcomeText(w, myPlayerNumber)
        && statsRequests == old(statsRequests) + [StatsRequest(StatsUrl, username, "fourinarow", StatsResult(w, myPlayerNumber))]
        && outbox == old(outbox)
      ensures gameId == old(gameId) && initialPlayer == old(initialPlayer) && finished == old(finished)
      ensures closedGames == old(closedGames)
      ensures opponentRequestedReset == old(opponentRequestedReset) && resets == old(resets)
    {
      var parts := Split(msg);
      if |parts| != 3 || parts[1] != gameId {
        return Ignored;
      }
      var winner := ParseInt(parts[2]);
      if winner.None? {
        return Crash;
      }
      ApplyGameOver(winner.value);
      return Handled;
    }

    /**
     * The runnable the GAME_OVER4 branch posts: only the first result for
     * the current game counts; it ends the game, shows the outcome for the
     * winner field, ends my turn and queues one stats request.
     */
    method ApplyGameOver(w: int)
      requires Valid()
      modifies this
      ensures Valid()
      ensures old(gameEnded) ==> unchanged(this)
      ensures !old(gameEnded) ==>
        && gameEnded && !isMyTurn
        && status == OutcomeText(w, myPlayerNumber)
        && statsRequests == old(statsRequests) + [StatsRequest(StatsUrl, username, "fourinarow", StatsResult(w, myPlayerNumber))]
      ensures outbox == old(outbox) && gameId == old(gameId) && initialPlayer == old(initialPlayer) && finished == old(finished)
      ensures closedGames == old(closedGames) && opponentRequestedReset == old(opponentRequestedReset) && resets == old(resets)
    {
      if !gameEnded {
        gameEnded, status, isMyTurn := true, OutcomeText(w, myPlayerNumber), false;
        statsRequests := statsRequests + [StatsRequest(StatsUrl, username, "fourinarow", StatsResult(w, myPlayerNumber))];
      }
    }

    /** moveReceiver, EXIT_FOURINAROW branch: the opponent left this game, so the screen finishes. */
    method ReceiveExit(msg: string)
      requires Valid() && RouteOf(msg) == ExitRoute
      modifies this
      ensures Valid()
      ensures finished == (old(finished) || (|Split(msg)| == 2 && Split(msg)[1] == old(gameId)))
      ensures gameId == old(gameId) && isMyTurn == old(isMyTurn) && gameEnded == old(gameEnded)
      ensures outbox == old(outbox) && statsRequests == old(statsRequests) && status == old(status)
      ensures initialPlayer == old(initialPlayer)
      ensures opponentRequestedReset == old(opponentRequestedReset) && resets == old(resets) && closedGames == old(closedGames)
    {
      var parts := Split(msg);
      if |parts| == 2 && parts[1] == gameId {
        finished := true;
      }
    }

    /**
     * resetReceiver, RESET_GAME_PENDING branch: with at least three fields
     * (whatever game id the second holds) the opponent's request is noted.
     */
    method ReceivePending(msg: string)
      requires Valid() && RouteOf(msg) == PendingRoute
      modifies this
      ensures Valid()
      ensures opponentRequestedReset == (old(opponentRequestedReset) || |Split(msg)| >= 3)
      ensures gameId == old(gameId) && isMyTurn == old(isMyTurn) && gameEnded == old(gameEnded)
      ensures outbox == old(outbox) && statsRequests == old(statsRequests) && status == old(status)
      ensures initialPlayer == old(initialPlayer) && finished == old(finished)
      ensures resets == old(resets) && closedGames == old(closedGames)
    {
      var parts := Split(msg);
      if |parts| >= 3 {
        opponentRequestedReset := true;
      }
    }

    /**
     * What resetReceiver does for a confirmed reset: adopts the new game id,
     * hands the first move to the other player, puts a new empty board in
     * place and reopens the game.
     */
    method ApplyReset(newGameId: string)
      requires Valid()
      modifies this, view
      ensures Valid()
      ensures gameId == newGameId
      ensures initialPlayer == Toggle(old(initialPlayer)) && isMyTurn == (myPlayerNumber == initialPlayer)
      ensures fresh(view.board) && Empty(view.board)
      ensures !opponentRequestedReset && !gameEnded && status == ResetText(isMyTurn)
      ensures outbox == old(outbox) && statsRequests == old(statsRequests) && finished == old(finished)
      ensures resets == old(resets) + 1 && closedGames == old(closedGames) + (if old(gameEnded) then 1 else 0)
    {
      var next := if initialPlayer == 1 then 2 else 1;
      view.ResetBoard();
      gameId, initialPlayer, isMyTurn, opponentRequestedReset := newGameId, next, myPlayerNumber == next, false;
      closedGames, gameEnded, status, resets :=
        closedGames + (if gameEnded then 1 else 0), false, ResetText(myPlayerNumber == next), resets + 1;
    }

    /**
     * resetReceiver, RESET_GAME_CONFIRMED branch: with at least two fields it
     * applies the reset under field 1 as the game id, without checking it.
     */
    method ReceiveResetConfirmed(msg: string)
      requires Valid() && RouteOf(msg) == ConfirmedRoute
      modifies this, view
      ensures Valid()
      ensures |Split(msg)| < 2 ==> unchanged(this) && unchanged(view)
      ensures |Split(msg)| >= 2 ==>
        && gameId == Split(msg)[1]
        && initialPlayer == Toggle(old(initialPlayer))
        && isMyTurn == (myPlayerNumber == initialPlayer)
        && fresh(view.board) && Empty(view.board)
        && !opponentRequestedReset && !gameEnded
        && status == ResetText(isMyTurn)
        && outbox == old(outbox) && statsRequests == old(statsRequests)
        && resets == old(resets) + 1
      ensures finished == old(finished)
    {
      var parts := Split(msg);
      if |parts| >= 2 {
        ApplyReset(parts[1]);
      }
    }

    /**
     * The reset button: sends RESET_GAME_REQUEST for this game in both of its
     * branches; when the opponent had asked first it also clears the flag.
     */
    method ResetButton()
      requires Valid()
      modifies this
      ensures Valid()
      ensures outbox == old(outbox) + ["RESET_GAME_REQUEST:" + gameId]
      ensures !opponentRequestedReset
      ensures gameId == old(gameId) && isMyTurn == old(isMyTurn) && gameEnded == old(gameEnded)
      ensures status == old(status) && statsRequests == old(statsRequests) && finished == old(finished)
      ensures initialPlayer == old(initialPlayer) && resets == old(resets) && closedGames == old(closedGames)
    {
      if opponentRequestedReset {
        outbox := outbox + ["RESET_GAME_REQUEST:" + gameId];
        opponentRequestedReset := false;
      } else {
        outbox := outbox + ["RESET_GAME_REQUEST:" + gameId];
      }
    }

    /** The exit button: announces EXIT_FOURINAROW for this game and finishes. */
    method ExitButton()
      requires Valid()
      modifies this
      ensures Valid()
      ensures outbox == old(outbox) + ["EXIT_FOURINAROW:" + gameId] && finished
      ensures gameId == old(gameId) && isMyTurn == old(isMyTurn) && gameEnded == old(gameEnded)
      ensures status == old(status) && statsRequests == old(statsRequests)
      ensures initialPlayer == old(initialPlayer)
      ensures opponentRequestedReset == old(opponentRequestedReset) && resets == old(resets) && closedGames == old(closedGames)
    {
      outbox := outbox + ["EXIT_FOURINAROW:" + gameId];
      finished := true;
    }
  }

  /**
   * In every valid session the first move of the current game goes to
   * player 1 after an even number of confirmed resets and to player 2 after
   * an odd number; the methods above change initialPlayer only together
   * with resets, in ApplyReset.
   */
  lemma ResetAlternation(s: Session)
    requires s.Valid()
    ensures s.initialPlayer == if s.resets % 2 == 0 then 1 else 2
  {
    StartingPlayerParity(s.resets);
  }
}
