/**
 * MyChatService: the background service that owns the connection manager for
 * the signed-in user, registers itself as its message listener, and turns
 * each received line into one local broadcast, routed by the line's prefix.
 */
module ChatService {
  import opened JavaLang
  import opened Connection

  /** Service.START_STICKY. */
  const StartSticky: int := 1

  const GameAction: string := "tictactoe_move"
  const ChatAction: string := "chat_message"

  /** A local broadcast: the intent action and its "message" extra. */
  datatype Broadcast = Broadcast(action: string, message: string)

  /** The branches of onMessageReceived, in the order they are tested. */
  datatype Branch = GameMove | Chat | Joined | Invite | JoinGame | Start | Exit | Other

  function BranchOf(message: string): (b: Branch)
    ensures b.GameMove? <==> StartsWith(message, "MOVE:") || StartsWith(message, "GAME_OVER:")
  {
    if StartsWith(message, "MOVE:") || StartsWith(message, "GAME_OVER:") then GameMove
    else if StartsWith(message, "CHAT:") then Chat
    else if StartsWith(message, "JOINED:") then Joined
    else if StartsWith(message, "NEW_TICTACTOE:") || StartsWith(message, "NEW_FOURINAROW:") then Invite
    else if StartsWith(message, "JOIN_TICTACTOE:") || StartsWith(message, "JOIN_FOURINAROW:") then JoinGame
    else if StartsWith(message, "START_TICTACTOE:") || StartsWith(message, "START_FOURINAROW:") then Start
    else if StartsWith(message, "EXIT_TICTACTOE:") || StartsWith(message, "EXIT_FOURINAROW:") then Exit
    else Other
  }

  /**
   * onMessageReceived: exactly one broadcast, carrying the line unchanged;
   * its action is "tictactoe_move" for MOVE: and GAME_OVER: lines and
   * "chat_message" for everything else.
   */
  function OnMessageReceived(message: string): (b: Broadcast)
    ensures b.message == message
    ensures b.action == GameAction <==> StartsWith(message, "MOVE:") || StartsWith(message, "GAME_OVER:")
    ensures b.action == GameAction || b.action == ChatAction
  {
    match BranchOf(message)
    case GameMove => Broadcast(GameAction, message)
    case _ => Broadcast(ChatAction, message)
  }

  /**
   * Four-in-a-row moves and results (MOVE4:, GAME_OVER4:) do not carry the
   * tic-tac-toe prefixes, so they travel as chat messages.
   */
  lemma {:induction false} FourInARowFramesAreChat(message: string)
    requires StartsWith(message, "MOVE4:") || StartsWith(message, "GAME_OVER4:")
    ensures OnMessageReceived(message).action == ChatAction
  {
    if StartsWith(message, "MOVE4:") {
      assert message[0] == 'M' && message[4] == '4';
    } else {
      assert message[0] == 'G' && message[9] == '4';
    }
  }

  class Service {
    /** The service object as a listener of the manager. */
    const self: ListenerId
    var connectionManager: Manager?
    /** The USERNAME extra of the last start intent; None for null. */
    var username: Option<string>
    /** stopSelf() was called. */
    var stopped: bool

    ghost predicate Valid()
      reads this, connectionManager
    {
      connectionManager != null ==> connectionManager.Valid()
    }

    constructor (self: ListenerId)
      ensures Valid() && this.self == self
      ensures connectionManager == null && username == None && !stopped
    {
      this.self := self;
      connectionManager, username, stopped := null, None, false;
    }

    /**
     * onStartCommand for an intent (None for null) whose USERNAME extra may
     * be missing (None). Without either the service stops itself and
     * obtains no manager. Otherwise it takes the manager for the username,
     * registers itself only if the manager has no listener at all, and
     * starts connecting only if the manager is not connected; `reachable`
     * is whether that connection attempt succeeds. The answer is always
     * START_STICKY.
     */
    method OnStartCommand(registry: Registry, intent: Option<Option<string>>, reachable: bool) returns (r: int)
      requires registry.instance != null ==> registry.instance.Valid()
      modifies this, registry, registry.instance
      ensures r == StartSticky
      ensures intent.Some? ==> username == intent.value
      ensures intent.None? ==> username == old(username)
      ensures intent.None? || intent.value.None? ==>
        && stopped && connectionManager == old(connectionManager)
        && unchanged(registry) && (old(registry.instance) != null ==> unchanged(old(registry.instance)))
      ensures intent.Some? && intent.value.Some? ==>
        var u := intent.value.value;
        var reused := old(registry.instance) != null && old(registry.instance.username) == u;
        var priorListeners := if reused then old(registry.instance.listeners) else [];
        var priorConnected := reused && old(registry.instance.isConnected);
        && stopped == old(stopped)
        && connectionManager != null && connectionManager == registry.instance
        && (reused ==> connectionManager == old(registry.instance))
        && connectionManager.username == u && connectionManager.Valid()
        && connectionManager.listeners == (if priorListeners == [] then [self] else priorListeners)
        && connectionManager.isConnected == (priorConnected || reachable)
        && (!priorConnected && reachable ==>
              connectionManager.written == (if reused then old(registry.instance.written) else []) + [u])
        && (!reused && old(registry.instance) != null ==> unchanged(old(registry.instance)))
    {
      if intent.Some? {
        username := intent.value;
        if username.Some? {
          var m := registry.GetInstance(username.value);
          connectionManager := m;
          if m.listeners == [] {
            m.AddMessageListener(self);
          }
          if !m.IsConnected() {
            m.ConnectAndListen(reachable);
          }
        } else {
          stopped := true;
        }
      } else {
        stopped := true;
      }
      return StartSticky;
    }

    /**
     * onDestroy: with a manager, disconnect it (which says DISCONNECT only
     * if it was connected) and then take the service off its listeners;
     * without one, nothing.
     */
    method OnDestroy()
      requires Valid()
      modifies connectionManager
      ensures Valid()
      ensures connectionManager != null ==>
        && !connectionManager.isConnected
        && self !in connectionManager.listeners
        && connectionManager.listeners == RemoveFirst(old(connectionManager.listeners), self)
        && connectionManager.written == old(connectionManager.written)
          + (if old(connectionManager.isConnected) then ["DISCONNECT:" + connectionManager.username] else [])
    {
      var m := connectionManager;
      if m != null {
        m.Disconnect();
        m.RemoveMessageListener(self);
      }
    }
  }
}
