# ChatRoom client core in Dafny

A model of the client-side game and protocol logic of the ChatRoom Android
app. Players chat on a line-based server and challenge each other to
tic-tac-toe or four in a row. Every message is one line of colon-separated
fields, for example `MOVE:gameId:row:col:player`, `NEW_TICTACTOE:gameId:user`
or `RESET_GAME_CONFIRMED:gameId`.

Modules, one per piece of the client:

- `JavaLang` (`java_lang.dfy`): the parts of the JDK the protocol code relies
  on, with their JDK semantics.
  - `String.split(":")`, which drops trailing empty fields.
  - `String.trim()`, which removes chars at or below U+0020.
  - `Integer.toString` and `Integer.parseInt`, with the int range and the
    NumberFormatException case.
  - int division, which truncates toward zero.
- `Turns` (`turns.dfy`): player numbers and how the starting player alternates
  across resets.
- `TicTacToeBoard` / `TicTacToeGame`: `TicTacToeView` and `TicTacToeActivity`.
  - The 3×3 board is an `array2<int>` updated in place.
  - The win and draw checks are methods proved against quantified predicates.
  - The session is a class driven by clicks and by MOVE, RESET_GAME_CONFIRMED
    and EXIT_TICTACTOE frames.
- `FourInARowBoard` / `FourInARowGame`: `FourInARowView` and
  `FourInARowActivity`.
  - The 6×7 board is replaced wholesale on reset.
  - The gravity scan, the directional run counter, `hasFourConnected` and
    `isDraw`.
  - The session is a class driven by local moves and by MOVE4, GAME_OVER4,
    EXIT_FOURINAROW, RESET_GAME_PENDING and RESET_GAME_CONFIRMED frames.
- `Connection` (`connection.dfy`): `ServerConnectionManager` without sockets
  or threads.
  - The connection flag and the three stream handles.
  - The lines written, kept as an outbox.
  - The duplicate-free listener list.
  - The static instance keyed by username.
- `ChatService` (`chat_service.dfy`): `MyChatService`. The prefix routing of
  received lines into local broadcasts, and the listener and connect guards of
  `onStartCommand` and `onDestroy`.
- `ChatScreen` (`chat_screen.dfy`): `ChatActivity`.
  - The two dispatch chains of its broadcast receiver and the exclusion list
    that decides what is shown as chat.
  - The `activeGameInvites` table, as a map from gameId to an entry.
  - The invite, join, start and exit handlers, the send button and the
    scoreboard text.
- `Registration` (`registration.dfy`): the ordered checks of
  `RegistrationActivity.onRegisterBtnClick` and the request they build.

Conventions of the model:

- **Outbox.** Each activity keeps an `outbox`: the lines it hands to
  `ServerConnectionManager.sendMessage`, in order. Whether a line actually
  leaves the device is modelled once, in `Connection.Manager.SendMessage`.
- **Inbound frames.** An inbound frame is a method call on the session.
- **Posted runnables.** A runnable posted with `Handler.post` runs right after
  the handler that posted it, in posting order.
- **Finishing.** `finish()` sets a `finished` flag.

Where the code and its design description differ, the model follows the
code:

- Both players send `GAME_OVER` / `GAME_OVER4` for a game that ends.
- `FourInARowActivity.checkWin` never sets `gameEnded`; only a received
  GAME_OVER4 does.
- `onMoveMade` overwrites the win or draw text with the turn text.
- After a remote move that wins, four-in-a-row still gives the turn to the
  other player.
- `TicTacToeActivity` has no RESET_GAME_PENDING branch. Its
  `opponentRequestedReset` therefore stays false, which the session
  invariant records.
- `REGISTER_URL` has a single slash after `http:`.
- `getInstance` does not disconnect the manager it replaces.

## Model

| member | source | states |
|---|---|---|
| JavaLang.Split | app/src/main/java/com/example/chatroom/TicTacToeActivity.java:46 | `String.split(":")`: no field of the result holds a colon, and a string without a colon comes back as the single field `[s]` |
| JavaLang.SplitJoin | app/src/main/java/com/example/chatroom/FourInARowActivity.java:50 | splitting fields joined with ':' gives the same fields back, provided none holds a colon and the last is not empty |
| JavaLang.SplitFrame3 | app/src/main/java/com/example/chatroom/FourInARowActivity.java:64 | a three-field frame with colon-free fields and a non-empty last field splits into exactly those three fields |
| JavaLang.SplitFrame5 | app/src/main/java/com/example/chatroom/TicTacToeActivity.java:46 | a five-field frame with colon-free fields and a non-empty last field splits into exactly those five fields |
| JavaLang.SplitTag | app/src/main/java/com/example/chatroom/ChatActivity.java:381 | a line that starts with `tag:` has `tag` as its first split field |
| JavaLang.Trim | app/src/main/java/com/example/chatroom/RegistrationActivity.java:52-54 | `String.trim()`: the result neither starts nor ends with a char at or below U+0020; it is empty exactly when every char of the input is such a char; it is no longer than the input |
| JavaLang.IntToString | app/src/main/java/com/example/chatroom/TicTacToeActivity.java:167 | `Integer.toString` writes a non-empty field that holds no colon |
| JavaLang.ParseInt | app/src/main/java/com/example/chatroom/TicTacToeActivity.java:49-51 | `Integer.parseInt`: a value only for an optionally signed run of decimal digits that fits in an int (a Java int); the empty string and anything else are the NumberFormatException case |
| JavaLang.ParseIntToString | app/src/main/java/com/example/chatroom/FourInARowActivity.java:52-54 | `Integer.parseInt` reads back exactly the int that `Integer.toString` wrote |
| JavaLang.Quot | app/src/main/java/com/example/chatroom/TicTacToeView.java:111-113 | Java int division: the quotient is rounded toward zero, so it lies within one divisor of the dividend from below for non-negative dividends and from above for negative ones |
| Turns.PlayerNumber | app/src/main/java/com/example/chatroom/TicTacToeActivity.java:128-129 | the local player number is always 1 or 2 |
| Turns.Toggle | app/src/main/java/com/example/chatroom/TicTacToeActivity.java:229 | handing over the first move always gives a player number, and it is the other player |
| Turns.StartingPlayer | app/src/main/java/com/example/chatroom/FourInARowActivity.java:115 | after any number of confirmed resets the starting player is player 1 or 2 |
| Turns.StartingPlayerParity | app/src/main/java/com/example/chatroom/TicTacToeActivity.java:229 | resets alternate the starting player: player 1 after an even number of resets, player 2 after an odd number |
| TicTacToeBoard.BoardView.constructor | app/src/main/java/com/example/chatroom/TicTacToeView.java:51-52 | a new view has a fresh 3×3 board with every cell empty |
| TicTacToeBoard.BoardView.MarkCell | app/src/main/java/com/example/chatroom/TicTacToeView.java:125-138 | the mark succeeds exactly for an empty in-bounds cell; a refused mark leaves the board unchanged; a successful one writes the player at that cell only; an occupied cell is never overwritten |
| TicTacToeBoard.BoardView.ResetBoard | app/src/main/java/com/example/chatroom/TicTacToeView.java:140-147 | after the nested clearing loops every cell is empty |
| TicTacToeBoard.BoardView.GetBoardState | app/src/main/java/com/example/chatroom/TicTacToeView.java:149-155 | returns a freshly allocated 3×3 array equal to the board cell for cell, so writing to it cannot touch the board |
| TicTacToeBoard.OnTouchEvent | app/src/main/java/com/example/chatroom/TicTacToeView.java:105-123 | only ACTION_DOWN is acted on; a reported cell has both indices below 3; a view narrower than 3 pixels throws on the division |
| TicTacToeBoard.BandOf | app/src/main/java/com/example/chatroom/TicTacToeView.java:111-113 | the truncated quotient of a pixel offset names the cell-sized band that holds it, and offsets inside the grid give band 0, 1 or 2 |
| TicTacToeBoard.TouchHitsContainingCell | app/src/main/java/com/example/chatroom/TicTacToeView.java:105-123 | a press inside the square grid area is reported as the cell whose square contains the point |
| TicTacToeGame.CheckWin | app/src/main/java/com/example/chatroom/TicTacToeActivity.java:87-98 | true exactly when the player holds a whole row, a whole column or one of the two diagonals |
| TicTacToeGame.IsBoardFull | app/src/main/java/com/example/chatroom/TicTacToeActivity.java:100-107 | true exactly when no cell is empty |
| TicTacToeGame.RotationKeepsWinner | app/src/main/java/com/example/chatroom/TicTacToeActivity.java:87-98 | a quarter turn of the board maps winning lines to winning lines, so a player wins on a board exactly when they win on its rotation |
| TicTacToeGame.SameCellsSameVerdict | app/src/main/java/com/example/chatroom/TicTacToeActivity.java:78 | the copy the end-of-game check works on gives the same win and draw answers as the live board |
| TicTacToeGame.ParseMove | app/src/main/java/com/example/chatroom/TicTacToeActivity.java:46-51 | a move is read only from a frame of exactly five fields whose second field is the current game id, and its three numbers are ints |
| TicTacToeGame.MoveFrameRoundTrip | app/src/main/java/com/example/chatroom/TicTacToeActivity.java:46-51 | the MOVE frame a click sends (line 167) starts with `MOVE:` and is parsed by the peer, under the same colon-free game id, back into the same row, column and player |
| TicTacToeGame.MoveFrameFields | app/src/main/java/com/example/chatroom/TicTacToeActivity.java:167 | the MOVE frame splits into the tag, the game id and the three numbers |
| TicTacToeGame.ReceiverBranch | app/src/main/java/com/example/chatroom/TicTacToeActivity.java:45-72 | the MOVE branch is taken exactly for lines that start with `MOVE:`; no branch is taken exactly when the line has none of the three prefixes |
| TicTacToeGame.Session.constructor | app/src/main/java/com/example/chatroom/TicTacToeActivity.java:128-132 | the local player is 1 exactly when the user is PLAYER1; player 1 starts; it is my turn exactly when I am player 1; the board is empty and no result is shown |
| TicTacToeGame.Session.GameEndConditions | app/src/main/java/com/example/chatroom/TicTacToeActivity.java:77-85 | the verdict is a win for the last player whenever they hold a line, even on a full board; otherwise a draw when the board is full; otherwise the game goes on |
| TicTacToeGame.Session.ShowResult | app/src/main/java/com/example/chatroom/TicTacToeActivity.java:176-199 | only the first terminal event shows its result, sends its GAME_OVER frame and ends the turn; while a result is shown any later one leaves the session unchanged |
| TicTacToeGame.Session.OnCellClicked | app/src/main/java/com/example/chatroom/TicTacToeActivity.java:162-174 | acted on only on my turn, with no result shown, for an empty in-bounds cell. Then exactly that cell gets my number, the MOVE frame goes out followed by any GAME_OVER frame, the result text matches the verdict and the turn passes. Anything else changes nothing |
| TicTacToeGame.Session.ReceiveMove | app/src/main/java/com/example/chatroom/TicTacToeActivity.java:45-63 | a frame that does not parse under the current game id, or whose cell is refused, changes nothing. Otherwise exactly that cell is marked and the turn is mine exactly when the mover was the opponent, unless the move ended a game with no result shown: then the result is shown, GAME_OVER is sent and my turn ends |
| TicTacToeGame.Session.ReceiveResetConfirmed | app/src/main/java/com/example/chatroom/TicTacToeActivity.java:220-235 | with at least two fields: field 1 becomes the game id unchecked, the board and result are cleared, the reset request is cleared, the starting player toggles and it is my turn exactly when I start; a shorter frame changes nothing |
| TicTacToeGame.Session.ApplyReset | app/src/main/java/com/example/chatroom/TicTacToeActivity.java:225-230 | the new game id is adopted, the board is empty, no result is shown, no reset request is pending, the starting player toggles and it is my turn exactly when I start |
| TicTacToeGame.Session.ReceiveExit | app/src/main/java/com/example/chatroom/TicTacToeActivity.java:66-72 | the screen finishes exactly for a two-field exit frame for the current game; turn, result and outbox are untouched |
| TicTacToeGame.Session.ResetButton | app/src/main/java/com/example/chatroom/TicTacToeActivity.java:146-154 | the button sends RESET_GAME_REQUEST for the current game and changes nothing else |
| TicTacToeGame.Session.ExitButton | app/src/main/java/com/example/chatroom/TicTacToeActivity.java:156-159 | the button sends EXIT_TICTACTOE for the current game and finishes the screen |
| TicTacToeGame.ResetAlternation | app/src/main/java/com/example/chatroom/TicTacToeActivity.java:229 | in every reachable session the starting player is 1 after an even number of confirmed resets and 2 after an odd number |
| FourInARowBoard.BoardView.constructor | app/src/main/java/com/example/chatroom/FourInARowView.java:12-14 | a new view has a fresh 6×7 board with every cell empty |
| FourInARowBoard.BoardView.PlaceChip | app/src/main/java/com/example/chatroom/FourInARowView.java:84-91 | the chip is placed exactly when its cell is empty; an occupied cell leaves the board unchanged; a placement writes the player at that cell only; no gravity is applied |
| FourInARowBoard.BoardView.ResetBoard | app/src/main/java/com/example/chatroom/FourInARowView.java:93-96 | the board is replaced by a fresh array with every cell empty |
| FourInARowBoard.BoardView.GetBoard | app/src/main/java/com/example/chatroom/FourInARowView.java:98-100 | returns the live board array itself, not a copy |
| FourInARowBoard.BoardView.LowestEmptyRow | app/src/main/java/com/example/chatroom/FourInARowView.java:75-80 | the row found is empty and every row below it in the column is occupied; none is found exactly when the whole column is full |
| FourInARowBoard.BoardView.OnTouchEvent | app/src/main/java/com/example/chatroom/FourInARowView.java:71-82 | only ACTION_DOWN is acted on. A reported move is at the lowest empty cell of the touched column and always names player 0. A press on a full column is not handled |
| FourInARowBoard.ColumnAsWritten | app/src/main/java/com/example/chatroom/FourInARowView.java:74 | the column exactly as the code computes it, with `width / 7` in int arithmetic; it is never negative |
| FourInARowBoard.ColumnOf | app/src/main/java/com/example/chatroom/FourInARowView.java:74 | the corrected column: the seventh of the view that holds x, always a column of the grid |
| FourInARowBoard.ColumnAsWrittenOverruns | app/src/main/java/com/example/chatroom/FourInARowView.java:74-76 | on a view whose width is not a multiple of 7, a press inside the view gets column 7, which is off the grid |
| FourInARowBoard.ColumnAsWrittenAt701 | app/src/main/java/com/example/chatroom/FourInARowView.java:74 | the concrete case: a press at x = 700 on a 701-pixel view gets column 7 |
| FourInARowBoard.ColumnsAgree | app/src/main/java/com/example/chatroom/FourInARowView.java:74 | when the width is a multiple of 7 the corrected column equals the one the code computes |
| FourInARowGame.CountDirection | app/src/main/java/com/example/chatroom/FourInARowActivity.java:246-254 | the count is the length of the run of the player's chips that starts next to the cell and stops at the first off-grid or foreign cell; from a grid cell it is at most 6 |
| FourInARowGame.RunWithinGrid | app/src/main/java/com/example/chatroom/FourInARowActivity.java:248-249 | a run never leaves the grid: it is no longer than the cells left in its direction, so from next to a grid cell it is at most 6 |
| FourInARowGame.RunCell | app/src/main/java/com/example/chatroom/FourInARowActivity.java:246-254 | every cell inside a counted run holds the player's chip |
| FourInARowGame.RunReaches | app/src/main/java/com/example/chatroom/FourInARowActivity.java:246-254 | when the n cells next to a cell all hold the player's chip, the counted run is at least n long |
| FourInARowGame.HasFourConnected | app/src/main/java/com/example/chatroom/FourInARowActivity.java:239-244 | true exactly when the two opposite counts of some axis (vertical, horizontal or either diagonal) add up to more than 2 |
| FourInARowGame.AxisCountIffLine | app/src/main/java/com/example/chatroom/FourInARowActivity.java:239-244 | with the player's chip on the cell, an axis counts more than two neighbours exactly when four consecutive chips on that axis cover the cell |
| FourInARowGame.AxisCell | app/src/main/java/com/example/chatroom/FourInARowActivity.java:239-244 | with the player's chip on the cell, every cell between the ends of the two counted runs on an axis holds that chip |
| FourInARowGame.CountGivesLine | app/src/main/java/com/example/chatroom/FourInARowActivity.java:239-244 | more than two neighbours on an axis give four consecutive chips through the cell |
| FourInARowGame.LineGivesCount | app/src/main/java/com/example/chatroom/FourInARowActivity.java:239-244 | four consecutive chips through the cell give more than two neighbours on that axis |
| FourInARowGame.FourConnectedIffLine | app/src/main/java/com/example/chatroom/FourInARowActivity.java:239-244 | the test is exact for the chip just placed: true exactly when that cell lies in four consecutive chips of its player in a row, a column or a diagonal |
| FourInARowGame.IsDraw | app/src/main/java/com/example/chatroom/FourInARowActivity.java:256-263 | true exactly when no cell is empty |
| FourInARowGame.RouteOf | app/src/main/java/com/example/chatroom/FourInARowActivity.java:49-124 | each of the five branches of the two receivers is taken exactly for the lines with its prefix, so at most one runs per line |
| FourInARowGame.MoveFrameRoundTrip | app/src/main/java/com/example/chatroom/FourInARowActivity.java:49-54 | the MOVE4 frame a local move sends (line 217) starts with `MOVE4:`, so the peer routes it to the MOVE4 branch; it has five fields, the same game id, and row, column and player that parse back to the values sent |
| FourInARowGame.MoveFrameFields | app/src/main/java/com/example/chatroom/FourInARowActivity.java:217 | the MOVE4 frame splits into the tag, the game id and the three numbers |
| FourInARowGame.GameOverFrameRoundTrip | app/src/main/java/com/example/chatroom/FourInARowActivity.java:63-66 | the GAME_OVER4 frame checkWin sends (lines 230, 234) starts with `GAME_OVER4:`, so the peer routes it to the GAME_OVER4 branch; it has three fields, the same game id and the same winner |
| FourInARowGame.Session.constructor | app/src/main/java/com/example/chatroom/FourInARowActivity.java:147-149 | the local player is 1 exactly when the user is PLAYER1; it is my turn exactly when I am player 1; the status shows the turn; no game has ended |
| FourInARowGame.Session.CheckWin | app/src/main/java/com/example/chatroom/FourInARowActivity.java:225-237 | does nothing once the game has ended. Otherwise the win is tested first (GAME_OVER4 with the player, win or loss text, my turn ends), then the draw (GAME_OVER4 with 0). It never sets gameEnded |
| FourInARowGame.Session.OnMoveMade | app/src/main/java/com/example/chatroom/FourInARowActivity.java:211-223 | ignored unless it is my turn, the game has not ended and the cell is empty. Then exactly that cell gets my number whatever the view reported, MOVE4 goes out before any GAME_OVER4, the turn passes and the status shows the opponent's turn. The starting player, a pending reset request and the reset count are left as they were |
| FourInARowGame.Session.ApplyMove | app/src/main/java/com/example/chatroom/FourInARowActivity.java:56-61 | the chip lands only on an empty cell, checkWin runs either way, and the turn is mine exactly when the mover was the opponent, even after a winning move; the game id, starting player, pending request and reset count are left as they were |
| FourInARowGame.Session.ReceiveMove | app/src/main/java/com/example/chatroom/FourInARowActivity.java:49-62 | a frame with the wrong field count or game id is ignored; a non-numeric field or an off-grid cell crashes the screen; in either case nothing changes. Any other frame is applied as by ApplyMove, leaving the starting player, pending request and reset count as they were |
| FourInARowGame.Session.ReceiveGameOver | app/src/main/java/com/example/chatroom/FourInARowActivity.java:63-84 | the first three-field GAME_OVER4 for the current game ends it, shows the outcome, ends my turn and queues exactly one stats request with win, loss or draw. Repeats and frames for other games change nothing; a non-numeric winner crashes. The starting player, pending request and reset count never change |
| FourInARowGame.Session.ApplyGameOver | app/src/main/java/com/example/chatroom/FourInARowActivity.java:67-82 | only the first result for the current game counts: it ends the game, shows draw, win or loss for the winner field, ends my turn and queues exactly one stats request; a later one changes nothing |
| FourInARowGame.Session.ReceiveExit | app/src/main/java/com/example/chatroom/FourInARowActivity.java:85-91 | the screen finishes exactly for a two-field exit frame for the current game; nothing else changes, the starting player, pending request and reset count included |
| FourInARowGame.Session.ReceivePending | app/src/main/java/com/example/chatroom/FourInARowActivity.java:101-109 | a pending reset of at least three fields, for any game id, records the opponent's request |
| FourInARowGame.Session.ApplyReset | app/src/main/java/com/example/chatroom/FourInARowActivity.java:112-122 | adopts the new game id, toggles the starting player, gives me the turn exactly when I start, puts a fresh empty board in place, clears the request and the ended flag, and shows the reset text; the reset count goes up by one, and a game that had ended is counted as closed |
| FourInARowGame.Session.ReceiveResetConfirmed | app/src/main/java/com/example/chatroom/FourInARowActivity.java:110-124 | with at least two fields the reset is applied under field 1, unchecked, as the new game id; a shorter frame changes nothing |
| FourInARowGame.Session.ResetButton | app/src/main/java/com/example/chatroom/FourInARowActivity.java:158-168 | both branches send RESET_GAME_REQUEST for the current game, and afterwards no opponent request is pending; the starting player and the reset count are unchanged, so only a confirmed reset moves the first move |
| FourInARowGame.Session.ExitButton | app/src/main/java/com/example/chatroom/FourInARowActivity.java:170-173 | the button sends EXIT_FOURINAROW for the current game and finishes the screen, changing nothing else of the game |
| FourInARowGame.ResetAlternation | app/src/main/java/com/example/chatroom/FourInARowActivity.java:115 | in every valid session the starting player is 1 after an even number of confirmed resets and 2 after an odd number; every other handler leaves both unchanged |
| Connection.RemoveFirstNoDuplicates | app/src/main/java/com/example/chatroom/ServerConnectionManager.java:176-180 | removing from a duplicate-free list keeps it duplicate-free, removes the listener, keeps every other listener and shortens the list by one exactly when the listener was there |
| Connection.Manager.constructor | app/src/main/java/com/example/chatroom/ServerConnectionManager.java:36-39 | a new manager is disconnected, with no open handle, no listener and nothing written |
| Connection.Manager.ConnectAndListen | app/src/main/java/com/example/chatroom/ServerConnectionManager.java:52-81 | a no-op when connected. Otherwise a reachable server gets all handles open, the username written as the first new line and only then the connected flag. An unreachable one leaves the manager disconnected with every handle closed |
| Connection.Manager.IsConnected | app/src/main/java/com/example/chatroom/ServerConnectionManager.java:48-50 | answers the connected flag |
| Connection.Manager.SendMessage | app/src/main/java/com/example/chatroom/ServerConnectionManager.java:116-125 | the line is written only while connected with an open writer and is dropped otherwise; nothing else changes |
| Connection.Manager.Disconnect | app/src/main/java/com/example/chatroom/ServerConnectionManager.java:127-140 | only while connected does it clear the flag, write DISCONNECT:username and close every handle; a disconnected manager is left exactly as it was, so a second call does nothing |
| Connection.Manager.CloseConnection | app/src/main/java/com/example/chatroom/ServerConnectionManager.java:142-163 | afterwards the writer, reader and socket are all closed, whatever closing threw |
| Connection.Manager.HandleDisconnect | app/src/main/java/com/example/chatroom/ServerConnectionManager.java:108-114 | while connected it clears the flag and closes the handles without writing a farewell line |
| Connection.Manager.ListenerStops | app/src/main/java/com/example/chatroom/ServerConnectionManager.java:83-106 | however the read loop ends the manager is left disconnected; DISCONNECT:username is written only when the stream ended while still connected |
| Connection.Manager.AddMessageListener | app/src/main/java/com/example/chatroom/ServerConnectionManager.java:165-174 | the listener is appended only if absent, so the list never holds a duplicate, and afterwards it is registered |
| Connection.Manager.RemoveMessageListener | app/src/main/java/com/example/chatroom/ServerConnectionManager.java:176-180 | removes the listener if present, keeps every other listener in order, and is a no-op otherwise |
| Connection.Manager.NotifyMessageListeners | app/src/main/java/com/example/chatroom/ServerConnectionManager.java:182-187 | every registered listener receives the message exactly once, in registration order, and no one else receives it |
| Connection.Registry.constructor | app/src/main/java/com/example/chatroom/ServerConnectionManager.java:41-46 | no instance exists before the first getInstance |
| Connection.Registry.GetInstance | app/src/main/java/com/example/chatroom/ServerConnectionManager.java:41-46 | returns the existing instance exactly when it has the same username. Otherwise it installs a fresh, disconnected manager and leaves the old one as it was, still connected if it was |
| ChatService.BranchOf | app/src/main/java/com/example/chatroom/MyChatService.java:69-116 | the game branch is taken exactly for lines that start with `MOVE:` or `GAME_OVER:` |
| ChatService.OnMessageReceived | app/src/main/java/com/example/chatroom/MyChatService.java:65-117 | every line gives one broadcast that carries the line unchanged. Its action is "tictactoe_move" exactly for `MOVE:` and `GAME_OVER:` lines and "chat_message" otherwise |
| ChatService.FourInARowFramesAreChat | app/src/main/java/com/example/chatroom/MyChatService.java:69 | MOVE4 and GAME_OVER4 lines do not match the tic-tac-toe prefixes, so they travel as chat_message |
| ChatService.Service.constructor | app/src/main/java/com/example/chatroom/MyChatService.java:23-48 | a new service has no manager and no username and is not stopped |
| ChatService.Service.OnStartCommand | app/src/main/java/com/example/chatroom/MyChatService.java:23-48 | always START_STICKY. A null intent or username stops the service and obtains no manager. Otherwise the service registers itself only on a manager with no listener, and a connection is attempted only when the manager is not already connected |
| ChatService.Service.OnDestroy | app/src/main/java/com/example/chatroom/MyChatService.java:50-58 | with a manager: it is disconnected (saying DISCONNECT only if it was connected) and the service is no longer among its listeners; without one: nothing happens |
| ChatScreen.FirstHandler | app/src/main/java/com/example/chatroom/ChatActivity.java:69-76 | the first chain shows a tic-tac-toe invite exactly for lines that start with `NEW_TICTACTOE:` |
| ChatScreen.SecondHandler | app/src/main/java/com/example/chatroom/ChatActivity.java:77-99 | the second chain adds a line to the chat exactly when it starts with none of the fourteen listed prefixes |
| ChatScreen.Clash | app/src/main/java/com/example/chatroom/ChatActivity.java:83-96 | a line cannot start with two prefixes that differ at a position both cover |
| ChatScreen.ExitFramesReachGameExit | app/src/main/java/com/example/chatroom/ChatActivity.java:75-76 | exit frames of both games reach handleGameExit |
| ChatScreen.ExitFramesNotChat | app/src/main/java/com/example/chatroom/ChatActivity.java:77-99 | the second chain then still tests exit frames and does nothing with them |
| ChatScreen.BareExitReachesBothChains | app/src/main/java/com/example/chatroom/ChatActivity.java:75-99 | the bare line EXIT_FOURINAROW, with no colon, is handled by both chains: as an exit by the first and as chat by the second |
| ChatScreen.FirstChainNotFourInARow | app/src/main/java/com/example/chatroom/ChatActivity.java:69-82 | a line the first chain acts on is never a four-in-a-row invite, join or start |
| ChatScreen.FirstChainNotChat | app/src/main/java/com/example/chatroom/ChatActivity.java:69-99 | a line the first chain acts on is on the exclusion list, unless it starts with the bare EXIT_FOURINAROW with no colon after it |
| ChatScreen.BothChainsOnlyForBareExit | app/src/main/java/com/example/chatroom/ChatActivity.java:69-99 | both chains act on a line only when it starts with EXIT_FOURINAROW but not with `EXIT_FOURINAROW:`; then it is an exit and also chat |
| ChatScreen.PendingAndJoinRequestsShownAsChat | app/src/main/java/com/example/chatroom/ChatActivity.java:83-98 | RESET_GAME_PENDING and JOIN_REQUEST lines are on neither chain, so they are shown as chat |
| ChatScreen.ParseInvite | app/src/main/java/com/example/chatroom/ChatActivity.java:305-310 | an invite is read exactly from a line of three fields: the game id and the initiator |
| ChatScreen.InviteFrameRoundTrip | app/src/main/java/com/example/chatroom/ChatActivity.java:295-299 | the invite a client sends is read back as its own game id and initiator, provided neither holds a colon and the username is not empty |
| ChatScreen.ParseStart | app/src/main/java/com/example/chatroom/ChatActivity.java:380-386 | a start is read exactly from a line of four fields whose tag, for tic-tac-toe, is START_TICTACTOE: game id, player 1 and player 2 |
| ChatScreen.ParseExit | app/src/main/java/com/example/chatroom/ChatActivity.java:364-367 | an exit is read exactly from a line of two fields: its game id |
| ChatScreen.JoinConfirmed | app/src/main/java/com/example/chatroom/ChatActivity.java:352-362 | the "joined" toast needs four fields, and for tic-tac-toe also the JOIN_TICTACTOE tag |
| ChatScreen.InviteEntry | app/src/main/java/com/example/chatroom/ChatActivity.java:315-332 | the user's own invite is disabled and sends nothing; any other invite's Join sends `JOIN_REQUEST:gameId:initiator:username` (JOIN_REQUEST4 for four in a row) |
| ChatScreen.StartedEntry | app/src/main/java/com/example/chatroom/ChatActivity.java:396-409 | the row of a started game has a disabled button |
| ChatScreen.ScoreboardText | app/src/main/java/com/example/chatroom/ChatActivity.java:255-266 | the dialog lists the first min(n, 5) rows, ranked from 1, as "k. name - Wins: w", with "Unknown" and 0 for missing fields |
| ChatScreen.SameRowsSameText | app/src/main/java/com/example/chatroom/ChatActivity.java:258 | the dialog text for the first n rows is decided by those n rows alone |
| ChatScreen.ScoreTextIgnoresTail | app/src/main/java/com/example/chatroom/ChatActivity.java:258 | rows after the ones listed never affect the text |
| ChatScreen.ScoreTextLines | app/src/main/java/com/example/chatroom/ChatActivity.java:263-264 | every listed row adds at least two chars and the text ends with a newline |
| ChatScreen.Screen.constructor | app/src/main/java/com/example/chatroom/ChatActivity.java:105-135 | a new screen has no invites, no chat lines, nothing sent and an empty field |
| ChatScreen.Screen.RemoveExistingInvite | app/src/main/java/com/example/chatroom/ChatActivity.java:343-350 | the row of the game id, if any, is removed and nothing else changes |
| ChatScreen.Screen.ShowInvite | app/src/main/java/com/example/chatroom/ChatActivity.java:305-341 | a three-field invite replaces any row of its game id with the new invite row, so the table keeps one row per game; any other line is ignored |
| ChatScreen.Screen.ClickJoin | app/src/main/java/com/example/chatroom/ChatActivity.java:328-331 | a click on an enabled Join sends exactly the join request of that row and removes the row |
| ChatScreen.Screen.HandleGameExit | app/src/main/java/com/example/chatroom/ChatActivity.java:364-378 | a two-field exit closes the row of its game id only when that row exists; otherwise nothing changes; no row is ever added or removed |
| ChatScreen.Screen.HandleStart | app/src/main/java/com/example/chatroom/ChatActivity.java:380-416 | a well-formed start launches the game for this user and replaces the row of its game id by a disabled in-progress row; anything else is dropped |
| ChatScreen.Screen.OnReceive | app/src/main/java/com/example/chatroom/ChatActivity.java:62-102 | only chat_message broadcasts are acted on; the line is added to the chat exactly when it is on no exclusion prefix; nothing is ever sent; the joined toast is shown exactly for a confirmed join of either game. An invite line updates the invite table as showGameInvite / showFourInARowInvite does, a start line as handleStart* does (and launches the game), an exit line as handleGameExit does; at most one of these runs per line, and any other line leaves the table and the launches alone |
| ChatScreen.Screen.SendButton | app/src/main/java/com/example/chatroom/ChatActivity.java:138-144 | the trimmed text is sent only when it is not empty, and only then is the field cleared |
| Registration.OnRegisterClick | app/src/main/java/com/example/chatroom/RegistrationActivity.java:51-111 | empty trimmed fields give "All fields are required"; otherwise different passwords give "Passwords do not match"; otherwise exactly one POST to REGISTER_URL with up_ime and password set to the trimmed username and password |
| Registration.LeadingBlankNeverFires | app/src/main/java/com/example/chatroom/RegistrationActivity.java:64-67 | the leading-blank rule never rejects anything, because the password it tests is already trimmed |
| Registration.PostedPasswordIsTrimmed | app/src/main/java/com/example/chatroom/RegistrationActivity.java:100-105 | a request is only built with a non-empty password that neither starts nor ends with a blank or control char |

## Left out

- Sockets, threads and the read loop of `ServerConnectionManager` are not modelled.
  - The asynchronous connect becomes the `reachable` parameter of `ConnectAndListen`.
  - The end of the read loop becomes `ListenerStops` with its cause.
  - Each line read becomes a `NotifyMessageListeners` call.
  - Nothing is claimed about the order of sends made from different threads.
- `LocalBroadcastManager` delivery is not modelled. `OnMessageReceived` returns the broadcast, and `ChatScreen.Screen.OnReceive` is called with its action and line.
- Runnables posted with `Handler.post` run immediately after the handler that posted them, in order; any interleaving with other frames is not modelled.
- All Volley HTTP and JSON work is not modelled: `fetchUserStats`, `fetchScoreboard`, the execution and answer of the registration POST, and the execution of `updateStats`.
  - `updateStats` is modelled only as a queued `StatsRequest` value.
  - The scoreboard rows are given already decoded, as `Score` values.
- `LoginActivity`, `GameOptionsBottomSheet` and the `onDraw` code of both views are not part of this model: they are screen wiring and drawing.
- `generateGameId` is not modelled: it reads the clock and `Random`, so the game id is an input string. For the same reason `initiateTicTacToeGame` / `initiateFourInARowGame` appear only as the frame they send (`ChatScreen.InviteFrame`).
- Toasts, text views, intents and `finish()` are not modelled; `finish()` is a `finished` flag.
  - `ChatScreen.Screen.OnReceive` reports only whether the joined toast is shown.
  - `addChatMessage` appends the line to `chat`.
  - The invite rows keep only their text, button label and what a click sends.
- The exit button of `ChatActivity` (send DISCONNECT, stop the service, go back to the main screen) is not modelled. Its effect on the connection is `Connection.Manager.SendMessage` followed by `Connection.Manager.Disconnect`.
- `onResume` / `onPause` / `onDestroy` of the activities only register and unregister receivers and are not modelled.
- Null Java strings are not modelled: a null message, game id or PLAYER extra, and the null-username path of the game activities' `onCreate`. The service's null intent and null username are modelled as `Option`.
- Touch coordinates are whole pixels. The float coordinates of a `MotionEvent` and their truncating casts are not modelled.
- `JavaLang.ParseInt` accepts only ASCII digits; `Integer.parseInt` also accepts other Unicode decimal digits.
- Listeners are identified by a number, which stands for Java object identity.
- FourInARowBoard.BoardView.OnTouchEvent: uses the corrected column `ColumnOf`, not the column as written, and so requires `0 <= x < width`; see Findings.
- FourInARowBoard.BoardView.PlaceChip: requires a cell on the grid. Off the grid the Java array access throws; the receiver that could pass such a cell models this as a `Crash` outcome.
- TicTacToeGame.Session.ResetButton: models only the branch taken when no opponent request is pending. The other branch is unreachable in this activity because nothing sets the flag.

## Findings

| source | as written | input that shows it | evidently intended | confidence | as-written member | corrected member |
|---|---|---|---|---|---|---|
| app/src/main/java/com/example/chatroom/FourInARowView.java:74 | the touched column is `(int) (x / (width / 7))`, where `width / 7` is an int division, so the last `width % 7` pixels of the view get column 7 | a view 701 pixels wide and a press at x = 700 gives column 7; `board[row][7]` then throws ArrayIndexOutOfBoundsException | the seventh of the view that holds x, as the board is drawn (cells `width / 7.0` wide), always one of columns 0..6 | high; not executed | FourInARowBoard.ColumnAsWritten, FourInARowBoard.ColumnAsWrittenOverruns, FourInARowBoard.ColumnAsWrittenAt701 | FourInARowBoard.ColumnOf, FourInARowBoard.ColumnsAgree |
