/**
 * ChatActivity: the two dispatch chains of its broadcast receiver, the table
 * of game invites shown in the chat (gameId → the invite's text and button),
 * the invite, join, start and exit handlers, the send button, and the text
 * of the scoreboard dialog.
 */
module ChatScreen {
  import opened JavaLang

  const ChatAction: string := "chat_message"

  datatype Game = TicTacToe | FourInARow

  // ---------------------------------------------------------------------------
  // Prefix dispatch
  // ---------------------------------------------------------------------------

  /** The handler the first chain (tic-tac-toe, and exits) picks. */
  datatype FirstAction = ShowTicTacToeInvite | JoinTicTacToe | StartTicTacToe | GameExit | NoFirst

  /** The handler the second chain (four-in-a-row, and plain chat) picks. */
  datatype SecondAction = ShowFourInARowInvite | JoinFourInARow | StartFourInARow | AddChat | NoSecond

  /** The first if/else chain of the receiver; its exit test checks EXIT_FOURINAROW without a colon. */
  function FirstHandler(m: string): (a: FirstAction)
    ensures a.ShowTicTacToeInvite? <==> StartsWith(m, "NEW_TICTACTOE:")
  {
    if StartsWith(m, "NEW_TICTACTOE:") then ShowTicTacToeInvite
    else if StartsWith(m, "JOIN_TICTACTOE:") then JoinTicTacToe
    else if StartsWith(m, "START_TICTACTOE:") then StartTicTacToe
    else if StartsWith(m, "EXIT_TICTACTOE:") || StartsWith(m, "EXIT_FOURINAROW") then GameExit
    else NoFirst
  }

  /** The fourteen prefixes a line must avoid to be shown as chat. */
  const NotChat: seq<string> := [
    "EXIT_TICTACTOE:", "EXIT_FOURINAROW:", "RESET_GAME_REQUEST:", "RESET_GAME_CONFIRMED:",
    "MOVE:", "GAME_OVER:", "MOVE4:", "GAME_OVER4:",
    "NEW_TICTACTOE:", "JOIN_TICTACTOE:", "START_TICTACTOE:",
    "NEW_FOURINAROW:", "JOIN_FOURINAROW:", "START_FOURINAROW:"]

  predicate ShownAsChat(m: string) {
    forall k :: 0 <= k < |NotChat| ==> !StartsWith(m, NotChat[k])
  }

  /**
   * The second chain, which starts afresh after the first: a line is added
   * to the chat exactly when it starts with none of the fourteen prefixes.
   */
  function SecondHandler(m: string): (a: SecondAction)
    ensures a.AddChat? <==> ShownAsChat(m)
  {
    if StartsWith(m, "NEW_FOURINAROW:") then
      assert NotChat[11] == "NEW_FOURINAROW:";
      ShowFourInARowInvite
    else if StartsWith(m, "JOIN_FOURINAROW:") then
      assert NotChat[12] == "JOIN_FOURINAROW:";
      JoinFourInARow
    else if StartsWith(m, "START_FOURINAROW:") then
      assert NotChat[13] == "START_FOURINAROW:";
      StartFourInARow
    else if ShownAsChat(m) then AddChat
    else NoSecond
  }

  /** A string that starts with p cannot start with a q that differs from p at index i. */
  lemma Clash(m: string, p: string, q: string, i: int)
    requires StartsWith(m, p) && 0 <= i < |p| && i < |q| && p[i] != q[i]
    ensures !StartsWith(m, q)
  {
    assert m[i] == p[i];
  }

  /** Exit frames of both games reach handleGameExit. */
  lemma {:induction false} ExitFramesReachGameExit(m: string)
    requires StartsWith(m, "EXIT_TICTACTOE:") || StartsWith(m, "EXIT_FOURINAROW:")
    ensures FirstHandler(m) == GameExit
  {
    var tag := if StartsWith(m, "EXIT_TICTACTOE:") then "EXIT_TICTACTOE:" else "EXIT_FOURINAROW:";
    Clash(m, tag, "NEW_TICTACTOE:", 0);
    Clash(m, tag, "JOIN_TICTACTOE:", 0);
    Clash(m, tag, "START_TICTACTOE:", 0);
    if tag == "EXIT_FOURINAROW:" {
      assert m[..15] == m[..16][..15];
    }
  }

  /** ... and the second chain then leaves them alone: they are not shown as chat. */
  lemma {:induction false} ExitFramesNotChat(m: string)
    requires StartsWith(m, "EXIT_TICTACTOE:") || StartsWith(m, "EXIT_FOURINAROW:")
    ensures SecondHandler(m) == NoSecond
  {
    var tag := if StartsWith(m, "EXIT_TICTACTOE:") then "EXIT_TICTACTOE:" else "EXIT_FOURINAROW:";
    Clash(m, tag, "NEW_FOURINAROW:", 0);
    Clash(m, tag, "JOIN_FOURINAROW:", 0);
    Clash(m, tag, "START_FOURINAROW:", 0);
    assert StartsWith(m, NotChat[if tag == "EXIT_TICTACTOE:" then 0 else 1]);
  }

  /**
   * Because the second chain starts with a bare `if`, a line can be handled
   * by both: the bare word EXIT_FOURINAROW passes the first chain's exit test
   * and, lacking the colon, is also shown as chat.
   */
  lemma BareExitReachesBothChains()
    ensures FirstHandler("EXIT_FOURINAROW") == GameExit
    ensures SecondHandler("EXIT_FOURINAROW") == AddChat
  {
    var m := "EXIT_FOURINAROW";
    assert StartsWith(m, m);
    Clash(m, m, "NEW_TICTACTOE:", 0);
    Clash(m, m, "JOIN_TICTACTOE:", 0);
    Clash(m, m, "START_TICTACTOE:", 0);
    Clash(m, m, "EXIT_TICTACTOE:", 5);
    forall k | 0 <= k < |NotChat|
      ensures !StartsWith(m, NotChat[k])
    {
      var p := NotChat[k];
      if k == 1 {
        assert |p| > |m|;
      } else {
        var i := if p[0] != m[0] then 0 else 5;
        Clash(m, m, p, i);
      }
    }
  }

  /** A line the first chain acts on is never a four-in-a-row invite, join or start. */
  lemma {:induction false} FirstChainNotFourInARow(m: string)
    requires FirstHandler(m) != NoFirst
    ensures !StartsWith(m, "NEW_FOURINAROW:") && !StartsWith(m, "JOIN_FOURINAROW:") && !StartsWith(m, "START_FOURINAROW:")
  {
    var tag :=
      match FirstHandler(m)
      case ShowTicTacToeInvite => "NEW_TICTACTOE:"
      case JoinTicTacToe => "JOIN_TICTACTOE:"
      case StartTicTacToe => "START_TICTACTOE:"
      case _ => if StartsWith(m, "EXIT_TICTACTOE:") then "EXIT_TICTACTOE:" else "EXIT_FOURINAROW";
    assert StartsWith(m, tag);
    Clash(m, tag, "NEW_FOURINAROW:", if tag[0] == 'N' then 4 else 0);
    Clash(m, tag, "JOIN_FOURINAROW:", if tag[0] == 'J' then 5 else 0);
    Clash(m, tag, "START_FOURINAROW:", if tag[0] == 'S' then 6 else 0);
  }

  /**
   * A line the first chain acts on is on the not-chat list, unless it starts
   * with the bare EXIT_FOURINAROW and no colon follows.
   */
  lemma {:induction false} FirstChainNotChat(m: string)
    requires FirstHandler(m) != NoFirst
    ensures !ShownAsChat(m)
      || (FirstHandler(m) == GameExit && StartsWith(m, "EXIT_FOURINAROW") && !StartsWith(m, "EXIT_FOURINAROW:"))
  {
    match FirstHandler(m)
    case ShowTicTacToeInvite => assert StartsWith(m, NotChat[8]);
    case JoinTicTacToe => assert StartsWith(m, NotChat[9]);
    case StartTicTacToe => assert StartsWith(m, NotChat[10]);
    case GameExit =>
      if StartsWith(m, "EXIT_TICTACTOE:") {
        assert StartsWith(m, NotChat[0]);
      } else if StartsWith(m, "EXIT_FOURINAROW:") {
        assert StartsWith(m, NotChat[1]);
      }
  }

  /**
   * That is the only overlap: when both chains act on a line, it starts
   * with EXIT_FOURINAROW but not with EXIT_FOURINAROW:, the first chain
   * treats it as an exit and the second shows it as chat.
   */
  lemma {:induction false} BothChainsOnlyForBareExit(m: string)
    requires FirstHandler(m) != NoFirst && SecondHandler(m) != NoSecond
    ensures FirstHandler(m) == GameExit && SecondHandler(m) == AddChat
    ensures StartsWith(m, "EXIT_FOURINAROW") && !StartsWith(m, "EXIT_FOURINAROW:")
  {
    FirstChainNotFourInARow(m);
    FirstChainNotChat(m);
  }

  /**
   * Reset requests still pending (RESET_GAME_PENDING:) and join requests
   * (JOIN_REQUEST:) are on neither chain's list, so they show up as chat.
   */
  lemma {:induction false} PendingAndJoinRequestsShownAsChat(m: string)
    requires StartsWith(m, "RESET_GAME_PENDING:") || StartsWith(m, "JOIN_REQUEST:")
    ensures FirstHandler(m) == NoFirst
    ensures SecondHandler(m) == AddChat
  {
    var tag := if StartsWith(m, "RESET_GAME_PENDING:") then "RESET_GAME_PENDING:" else "JOIN_REQUEST:";
    Clash(m, tag, "NEW_TICTACTOE:", 0);
    Clash(m, tag, "JOIN_TICTACTOE:", if tag[0] == 'J' then 5 else 0);
    Clash(m, tag, "START_TICTACTOE:", 0);
    Clash(m, tag, "EXIT_TICTACTOE:", 0);
    Clash(m, tag, "EXIT_FOURINAROW", 0);
    forall k | 0 <= k < |NotChat|
      ensures !StartsWith(m, NotChat[k])
    {
      var p := NotChat[k];
      var i := if p[0] != tag[0] then 0 else if p[5] != tag[5] then 5 else 11;
      Clash(m, tag, p, i);
    }
  }

  // ---------------------------------------------------------------------------
  // Frames
  // ---------------------------------------------------------------------------

  function GameName(game: Game): string {
    match game
    case TicTacToe => "TICTACTOE"
    case FourInARow => "FOURINAROW"
  }

  /** The invite initiateTicTacToeGame / initiateFourInARowGame sends: NEW_<game>:gameId:username. */
  function InviteFrame(game: Game, gameId: string, username: string): string {
    "NEW_" + GameName(game) + ":" + gameId + ":" + username
  }

  /** What the Join button sends: JOIN_REQUEST:… for tic-tac-toe, JOIN_REQUEST4:… for four-in-a-row. */
  function JoinFrame(game: Game, gameId: string, initiator: string, username: string): string {
    (if game == TicTacToe then "JOIN_REQUEST:" else "JOIN_REQUEST4:") + gameId + ":" + initiator + ":" + username
  }

  datatype Invite = Invite(gameId: string, initiator: string)

  /** The fields showGameInvite / showFourInARowInvite read: exactly three, gameId and initiator. */
  function ParseInvite(m: string): (r: Option<Invite>)
    ensures r.Some? <==> |Split(m)| == 3
    ensures r.Some? ==> r.value == Invite(Split(m)[1], Split(m)[2])
  {
    var parts := Split(m);
    if |parts| != 3 then None else Some(Invite(parts[1], parts[2]))
  }

  /**
   * An invite a client sends comes back to it, or to any other client, as
   * its own gameId and initiator, provided neither holds a colon and the
   * username is not empty.
   */
  lemma {:induction false} InviteFrameRoundTrip(game: Game, gameId: string, username: string)
    requires NoColon(gameId) && NoColon(username) && username != ""
    ensures ParseInvite(InviteFrame(game, gameId, username)) == Some(Invite(gameId, username))
  {
    var tag := "NEW_" + GameName(game);
    assert NoColon(tag);
    SplitFrame3(tag, gameId, username);
    assert InviteFrame(game, gameId, username) == tag + ":" + gameId + ":" + username;
  }

  datatype Start = Start(gameId: string, player1: string, player2: string)

  /**
   * The fields handleStartTicTacToe / handleStartFourInARow read: exactly
   * four; for tic-tac-toe the first must also be START_TICTACTOE, for four
   * in a row it is not checked.
   */
  function ParseStart(m: string, game: Game): (r: Option<Start>)
    ensures r.Some? <==> |Split(m)| == 4 && (game == TicTacToe ==> Split(m)[0] == "START_TICTACTOE")
    ensures r.Some? ==> r.value == Start(Split(m)[1], Split(m)[2], Split(m)[3])
  {
    var parts := Split(m);
    if |parts| == 4 && (game == TicTacToe ==> parts[0] == "START_TICTACTOE")
    then Some(Start(parts[1], parts[2], parts[3]))
    else None
  }

  /** handleGameExit reads the gameId of a frame of exactly two fields. */
  function ParseExit(m: string): (r: Option<string>)
    ensures r.Some? <==> |Split(m)| == 2
    ensures r.Some? ==> r.value == Split(m)[1]
  {
    var parts := Split(m);
    if |parts| == 2 then Some(parts[1]) else None
  }

  /**
   * handleJoinTicTacToe / handleJoinFourInARow: whether the "you have
   * joined" toast is shown; four fields are needed, and for tic-tac-toe the
   * JOIN_TICTACTOE tag too.
   */
  function JoinConfirmed(m: string, game: Game): (shown: bool)
    ensures shown ==> |Split(m)| == 4
    ensures game == FourInARow ==> (shown <==> |Split(m)| == 4)
    ensures game == TicTacToe ==> (shown <==> |Split(m)| == 4 && Split(m)[0] == "JOIN_TICTACTOE")
  {
    var parts := Split(m);
    |parts| == 4 && (game == FourInARow || parts[0] == "JOIN_TICTACTOE")
  }

  // ---------------------------------------------------------------------------
  // The invite table
  // ---------------------------------------------------------------------------

  /** One row of activeGameInvites: the text shown and the button under it; onJoin is what a click sends, None when disabled. */
  datatype Entry = Entry(text: string, button: string, onJoin: Option<string>)

  /** The row an invite shows: the user's own invite is disabled and waits; any other one can be joined. */
  function InviteEntry(game: Game, gameId: string, initiator: string, username: string): (e: Entry)
    ensures e.onJoin.None? <==> initiator == username
    ensures e.onJoin.Some? ==> e.onJoin.value == JoinFrame(game, gameId, initiator, username)
  {
    var text := initiator + (if game == TicTacToe then " wants to play Tic Tac Toe!" else " wants to play Four in a Row!");
    if initiator == username then Entry(text, "Your Game - Waiting...", None)
    else Entry(text, "Join Game", Some(JoinFrame(game, gameId, initiator, username)))
  }

  /** The row of a game that has started: a disabled status button. */
  function StartedEntry(game: Game, s: Start): (e: Entry)
    ensures e.onJoin.None?
  {
    if game == TicTacToe then Entry("Tic Tac Toe: " + s.player1 + " vs " + s.player2, "Game in Progress", None)
    else Entry("Four in a Row: " + s.player1 + " vs " + s.player2, "Game in Progress / Has already ended", None)
  }

  const ClosedText: string := "This game was closed."

  /** What startActivity is given when a game starts. */
  datatype Launch = Launch(game: Game, gameId: string, player1: string, player2: string, username: string)

  /** A score row as the server sends it: either field may be missing. */
  datatype Score = Score(name: Option<string>, wins: Option<int>)

  /** One line of the scoreboard dialog: "k. name - Wins: w", with "Unknown" and 0 for missing fields. */
  function ScoreLine(rank: int, s: Score): string {
    IntToString(rank) + ". " + (if s.name.Some? then s.name.value else "Unknown")
      + " - " + "Wins: " + IntToString(if s.wins.Some? then s.wins.value else 0) + "\n"
  }

  /** The lines for the first n rows, concatenated. */
  function ScoreText(board: seq<Score>, n: nat): string
    requires n <= |board|
  {
    if n == 0 then "" else ScoreText(board, n - 1) + ScoreLine(n, board[n - 1])
  }

  function Min(a: int, b: int): int {
    if a <= b then a else b
  }

  /**
   * showScoreboardDialog's text: one line per row for the first five rows
   * at most, ranked from 1.
   */
  method ScoreboardText(board: seq<Score>) returns (text: string)
    ensures text == ScoreText(board, Min(|board|, 5))
  {
    text := "";
    for i := 0 to Min(|board|, 5)
      invariant text == ScoreText(board, i)
    {
      text := text + ScoreLine(i + 1, board[i]);
    }
  }

  /** The text for the first n rows depends on those rows only. */
  lemma {:induction false} SameRowsSameText(a: seq<Score>, c: seq<Score>, n: nat)
    requires n <= |a| && n <= |c|
    requires forall i :: 0 <= i < n ==> a[i] == c[i]
    ensures ScoreText(a, n) == ScoreText(c, n)
  {
    if n > 0 {
      SameRowsSameText(a, c, n - 1);
      assert a[n - 1] == c[n - 1];
    }
  }

  /** The rows past the fifth never reach the dialog. */
  lemma {:induction false} ScoreTextIgnoresTail(board: seq<Score>, more: seq<Score>, n: nat)
    requires n <= |board|
    ensures ScoreText(board + more, n) == ScoreText(board, n)
  {
    SameRowsSameText(board + more, board, n);
  }

  /** Each line ends the text it is appended to; the k-th line follows the first k - 1. */
  lemma {:induction false} ScoreTextLines(board: seq<Score>, n: nat)
    requires n <= |board|
    ensures |ScoreText(board, n)| >= 2 * n
    ensures n > 0 ==> ScoreText(board, n)[|ScoreText(board, n)| - 1] == '\n'
  {
    if n > 0 {
      ScoreTextLines(board, n - 1);
      var line := ScoreLine(n, board[n - 1]);
      assert line[|line| - 1] == '\n';
    }
  }

  /** The table after showGameInvite / showFourInARowInvite on m. */
  function WithInvite(t: map<string, Entry>, m: string, game: Game, username: string): map<string, Entry> {
    match ParseInvite(m)
    case None => t
    case Some(i) => t[i.gameId := InviteEntry(game, i.gameId, i.initiator, username)]
  }

  /** The table after handleStartTicTacToe / handleStartFourInARow on m. */
  function WithStart(t: map<string, Entry>, m: string, game: Game): map<string, Entry> {
    match ParseStart(m, game)
    case None => t
    case Some(s) => t[s.gameId := StartedEntry(game, s)]
  }

  /** The game activity handleStartTicTacToe / handleStartFourInARow starts for m, if any. */
  function StartLaunch(m: string, game: Game, username: string): seq<Launch> {
    match ParseStart(m, game)
    case None => []
    case Some(s) => [Launch(game, s.gameId, s.player1, s.player2, username)]
  }

  /** The table after handleGameExit on m. */
  function WithExit(t: map<string, Entry>, m: string): map<string, Entry> {
    match ParseExit(m)
    case Some(id) => if id in t then t[id := t[id].(button := ClosedText, onJoin := None)] else t
    case None => t
  }

  class Screen {
    /** The signed-in user. */
    const username: string
    /** activeGameInvites. */
    var invites: map<string, Entry>
    /** The lines added to the chat (addChatMessage). */
    var chat: seq<string>
    /** The lines handed to sendMessage, oldest first. */
    var outbox: seq<string>
    /** The game activities started. */
    var launched: seq<Launch>
    /** The message field. */
    var input: string

    constructor (username: string)
      ensures this.username == username
      ensures invites == map[] && chat == [] && outbox == [] && launched == [] && input == ""
    {
      this.username := username;
      invites, chat, outbox, launched, input := map[], [], [], [], "";
    }

    /** removeExistingInvite: drops the row of gameId, if any. */
    method RemoveExistingInvite(gameId: string)
      modifies this
      ensures invites == old(invites) - {gameId}
      ensures chat == old(chat) && outbox == old(outbox) && launched == old(launched) && input == old(input)
    {
      invites := invites - {gameId};
    }

    /**
     * showGameInvite / showFourInARowInvite: a three-field invite replaces
     * any row of its gameId by a fresh invite row, so the table keeps one row
     * per game; any other shape is ignored.
     */
    method ShowInvite(m: string, game: Game)
      modifies this
      ensures ParseInvite(m).None? ==> invites == old(invites)
      ensures ParseInvite(m).Some? ==>
        var i := ParseInvite(m).value;
        && invites == old(invites)[i.gameId := InviteEntry(game, i.gameId, i.initiator, username)]
        && (invites[i.gameId].onJoin.None? <==> i.initiator == username)
      ensures chat == old(chat) && outbox == old(outbox) && launched == old(launched) && input == old(input)
    {
      var invite := ParseInvite(m);
      if invite.None? {
        return;
      }
      var gameId, initiator := invite.value.gameId, invite.value.initiator;
      RemoveExistingInvite(gameId);
      invites := invites[gameId := InviteEntry(game, gameId, initiator, username)];
    }

    /**
     * A click on an enabled Join button: sends the join request it was
     * built with and removes the invite row.
     */
    method ClickJoin(gameId: string)
      requires gameId in invites && invites[gameId].onJoin.Some?
      modifies this
      ensures outbox == old(outbox) + [old(invites)[gameId].onJoin.value]
      ensures invites == old(invites) - {gameId}
      ensures chat == old(chat) && launched == old(launched) && input == old(input)
    {
      outbox := outbox + [invites[gameId].onJoin.value];
      RemoveExistingInvite(gameId);
    }

    /**
     * handleGameExit: a two-field exit closes the row of its gameId (the
     * button is disabled and relabelled) when there is one; otherwise
     * nothing changes.
     */
    method HandleGameExit(m: string)
      modifies this
      ensures ParseExit(m).Some? && ParseExit(m).value in old(invites) ==>
        var id := ParseExit(m).value;
        invites == old(invites)[id := old(invites)[id].(button := ClosedText, onJoin := None)]
      ensures ParseExit(m).None? || ParseExit(m).value !in old(invites) ==> invites == old(invites)
      ensures invites.Keys == old(invites).Keys
      ensures chat == old(chat) && outbox == old(outbox) && launched == old(launched) && input == old(input)
    {
      var exit := ParseExit(m);
      if exit.Some? && exit.value in invites {
        var id := exit.value;
        invites := invites[id := invites[id].(button := ClosedText, onJoin := None)];
      }
    }

    /**
     * handleStartTicTacToe / handleStartFourInARow: a well-formed start
     * launches the game for this user and replaces the invite row of its
     * gameId by a disabled in-progress row; anything else is dropped.
     */
    method HandleStart(m: string, game: Game)
      modifies this
      ensures ParseStart(m, game).None? ==> invites == old(invites) && launched == old(launched)
      ensures ParseStart(m, game).Some? ==>
        var s := ParseStart(m, game).value;
        && launched == old(launched) + [Launch(game, s.gameId, s.player1, s.player2, username)]
        && invites == old(invites)[s.gameId := StartedEntry(game, s)]
        && invites[s.gameId].onJoin.None?
      ensures chat == old(chat) && outbox == old(outbox) && input == old(input)
    {
      var start := ParseStart(m, game);
      if start.None? {
        return;
      }
      var s := start.value;
      launched := launched + [Launch(game, s.gameId, s.player1, s.player2, username)];
      RemoveExistingInvite(s.gameId);
      invites := invites[s.gameId := StartedEntry(game, s)];
    }

    /**
     * The broadcast receiver: only "chat_message" broadcasts are acted on;
     * the first chain and then the second each run at most one handler. It
     * never sends anything, and it adds the line to the chat exactly when the
     * line starts with none of the fourteen listed prefixes. An invite, start
     * or exit line changes the invite table (and a start launches its game)
     * through its handler; no line reaches two of those handlers.
     */
    method OnReceive(action: string, m: string) returns (joinToast: bool)
      modifies this
      ensures action != ChatAction ==> !joinToast && unchanged(this)
      ensures chat == old(chat) + (if action == ChatAction && ShownAsChat(m) then [m] else [])
      ensures outbox == old(outbox) && input == old(input)
      ensures action == ChatAction ==>
        match FirstHandler(m)
        case ShowTicTacToeInvite =>
          invites == WithInvite(old(invites), m, TicTacToe, username) && launched == old(launched)
        case StartTicTacToe =>
          invites == WithStart(old(invites), m, TicTacToe) && launched == old(launched) + StartLaunch(m, TicTacToe, username)
        case GameExit =>
          invites == WithExit(old(invites), m) && launched == old(launched)
        case _ =>
          match SecondHandler(m)
          case ShowFourInARowInvite =>
            invites == WithInvite(old(invites), m, FourInARow, username) && launched == old(launched)
          case StartFourInARow =>
            invites == WithStart(old(invites), m, FourInARow) && launched == old(launched) + StartLaunch(m, FourInARow, username)
          case _ =>
            invites == old(invites) && launched == old(launched)
      ensures joinToast <==>
        (action == ChatAction &&
         ((FirstHandler(m).JoinTicTacToe? && JoinConfirmed(m, TicTacToe))
          || (SecondHandler(m).JoinFourInARow? && JoinConfirmed(m, FourInARow))))
    {
      joinToast := false;
      if action != ChatAction {
        return;
      }
      if FirstHandler(m) != NoFirst {
        FirstChainNotFourInARow(m);
      }
      match FirstHandler(m) {
        case ShowTicTacToeInvite => ShowInvite(m, TicTacToe);
        case JoinTicTacToe => joinToast := JoinConfirmed(m, TicTacToe);
        case StartTicTacToe => HandleStart(m, TicTacToe);
        case GameExit => HandleGameExit(m);
        case NoFirst =>
      }
      match SecondHandler(m) {
        case ShowFourInARowInvite => ShowInvite(m, FourInARow);
        case JoinFourInARow => joinToast := JoinConfirmed(m, FourInARow);
        case StartFourInARow => HandleStart(m, FourInARow);
        case AddChat => chat := chat + [m];
        case NoSecond =>
      }
    }

    /**
     * The send button: the trimmed text is sent only when it is not empty,
     * and only then is the field cleared.
     */
    method SendButton()
      modifies this
      ensures Trim(old(input)) != "" ==> outbox == old(outbox) + [Trim(old(input))] && input == ""
      ensures Trim(old(input)) == "" ==> outbox == old(outbox) && input == old(input)
      ensures invites == old(invites) && chat == old(chat) && launched == old(launched)
    {
      var message := Trim(input);
      if message != "" {
        outbox := outbox + [message];
        input := "";
      }
    }
  }
}
