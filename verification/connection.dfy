/**
 * ServerConnectionManager without sockets or threads: the connection flag and
 * the three stream handles as booleans (open = non-null), the lines written
 * to the server as an outbox, the registered message listeners as a
 * duplicate-free sequence, and the process-wide instance keyed by username.
 */
module Connection {

  /** A message listener, by identity (Java compares listeners with `equals`, here object identity). */
  type ListenerId = nat

  predicate NoDuplicates<T(==)>(s: seq<T>) {
    forall i, j :: 0 <= i < j < |s| ==> s[i] != s[j]
  }

  /** The position of the first occurrence of `x` in `s`. */
  function IndexOf<T(==)>(s: seq<T>, x: T): (i: nat)
    requires x in s
    ensures i < |s| && s[i] == x && x !in s[..i]
  {
    if s[0] == x then 0
    else
      var k := IndexOf(s[1..], x);
      assert s[1..][..k] == s[1..k + 1];
      k + 1
  }

  /** `ArrayList.remove(Object)`: drops the first occurrence of `x`, if any. */
  function RemoveFirst<T(==)>(s: seq<T>, x: T): (r: seq<T>)
  {
    if x in s then s[..IndexOf(s, x)] + s[IndexOf(s, x) + 1..] else s
  }

  /**
   * Removing from a duplicate-free list: what was there apart from `x` stays,
   * in order, and `x` is gone.
   */
  lemma {:induction false} RemoveFirstNoDuplicates<T>(s: seq<T>, x: T)
    requires NoDuplicates(s)
    ensures var r := RemoveFirst(s, x);
      && NoDuplicates(r)
      && x !in r
      && (forall y :: y != x ==> (y in r <==> y in s))
      && |r| == if x in s then |s| - 1 else |s|
  {
    if x in s {
      var i := IndexOf(s, x);
      var r := s[..i] + s[i + 1..];
      assert forall k :: 0 <= k < |r| ==> r[k] == if k < i then s[k] else s[k + 1];
      forall y | y != x
        ensures y in r <==> y in s
      {
        if y in s {
          var k :| 0 <= k < |s| && s[k] == y;
          assert k != i;
          if k < i {
            assert r[k] == y;
          } else {
            assert r[k - 1] == y;
          }
        }
      }
      forall k | 0 <= k < |r|
        ensures r[k] != x
      {
        if k < i {
          assert r[k] == s[k] != s[i];
        } else {
          assert r[k] == s[k + 1] != s[i];
        }
      }
    }
  }

  /** One call of `onMessageReceived`: which listener heard which line. */
  datatype Delivery = Delivery(listener: ListenerId, message: string)

  /** How the background read loop ends. */
  datatype StopCause =
    | EndOfStream   // readLine returned null, or the flag was found cleared
    | SocketError   // SocketException
    | IoError       // any other IOException

  class Manager {
    const username: string
    var isConnected: bool
    var writerOpen: bool
    var readerOpen: bool
    var socketOpen: bool
    /** messageListeners, in registration order. */
    var listeners: seq<ListenerId>
    /** The lines the writer has sent, oldest first. */
    var written: seq<string>

    ghost predicate Valid()
      reads this
    {
      && NoDuplicates(listeners)
      && (isConnected ==> writerOpen && readerOpen && socketOpen)
    }

    /** A new manager: disconnected, no handles, no listeners. */
    constructor (username: string)
      ensures Valid() && this.username == username
      ensures !isConnected && !writerOpen && !readerOpen && !socketOpen
      ensures listeners == [] && written == []
    {
      this.username := username;
      isConnected, writerOpen, readerOpen, socketOpen := false, false, false, false;
      listeners, written := [], [];
    }

    /**
     * connectAndListen: nothing when already connected. Otherwise, when the
     * server is `reachable`, the three handles open, the username goes out
     * as the first line and only then is the manager connected; when it is
     * not, the manager stays disconnected with every handle closed.
     */
    method ConnectAndListen(reachable: bool)
      requires Valid()
      modifies this
      ensures Valid()
      ensures old(isConnected) ==> unchanged(this)
      ensures !old(isConnected) && reachable ==>
        && isConnected && writerOpen && readerOpen && socketOpen
        && written == old(written) + [username]
      ensures !old(isConnected) && !reachable ==>
        && !isConnected && !writerOpen && !readerOpen && !socketOpen
        && written == old(written)
      ensures listeners == old(listeners)
    {
      if isConnected {
        return;
      }
      if reachable {
        socketOpen, writerOpen, readerOpen := true, true, true;
        written := written + [username];
        isConnected := true;
      } else {
        isConnected := false;
        CloseConnection();
      }
    }

    /** isConnected(). */
    function IsConnected(): (b: bool)
      reads this
      ensures b <==> isConnected
    {
      isConnected
    }

    /** sendMessage: the line goes out only while connected with an open writer; otherwise it is dropped. */
    method SendMessage(message: string)
      requires Valid()
      modifies this
      ensures Valid()
      ensures written == if isConnected && writerOpen then old(written) + [message] else old(written)
      ensures isConnected == old(isConnected) && writerOpen == old(writerOpen)
      ensures readerOpen == old(readerOpen) && socketOpen == old(socketOpen)
      ensures listeners == old(listeners)
    {
      if isConnected && writerOpen {
        written := written + [message];
      }
    }

    /**
     * disconnect: only while connected does it clear the flag, send
     * DISCONNECT:username and close every handle; a disconnected manager is
     * left exactly as it was, so a second call does nothing.
     */
    method Disconnect()
      requires Valid()
      modifies this
      ensures Valid()
      ensures !isConnected
      ensures old(isConnected) ==>
        && !writerOpen && !readerOpen && !socketOpen
        && written == old(written) + ["DISCONNECT:" + username]
      ensures !old(isConnected) ==> unchanged(this)
      ensures listeners == old(listeners)
    {
      if isConnected {
        isConnected := false;
        if writerOpen {
          written := written + ["DISCONNECT:" + username];
          writerOpen := false;
        }
        CloseConnection();
      }
    }

    /** closeConnection: every handle ends up closed (the `finally` nulls them whatever close threw). */
    method CloseConnection()
      requires Valid() && !isConnected
      modifies this
      ensures Valid()
      ensures !writerOpen && !readerOpen && !socketOpen
      ensures isConnected == old(isConnected) && written == old(written) && listeners == old(listeners)
    {
      writerOpen, readerOpen, socketOpen := false, false, false;
    }

    /** handleDisconnect: while connected, clear the flag and close without a farewell line. */
    method HandleDisconnect()
      requires Valid()
      modifies this
      ensures Valid() && !isConnected
      ensures old(isConnected) ==> !writerOpen && !readerOpen && !socketOpen
      ensures !old(isConnected) ==> unchanged(this)
      ensures written == old(written) && listeners == old(listeners)
    {
      if isConnected {
        isConnected := false;
        CloseConnection();
      }
    }

    /**
     * The end of the read loop of startListeningForMessages: a socket error
     * closes the connection without a farewell, any other I/O error does so
     * only while connected, and the `finally` then calls disconnect, which
     * says DISCONNECT:username only if the connection is still up.
     */
    method ListenerStops(cause: StopCause)
      requires Valid()
      modifies this
      ensures Valid() && !isConnected
      ensures old(isConnected) ==> !writerOpen && !readerOpen && !socketOpen
      ensures !old(isConnected) ==> unchanged(this)
      ensures written == if old(isConnected) && cause.EndOfStream?
        then old(written) + ["DISCONNECT:" + username]
        else old(written)
      ensures listeners == old(listeners)
    {
      match cause {
        case SocketError =>
          HandleDisconnect();
        case IoError =>
          if isConnected {
            HandleDisconnect();
          }
        case EndOfStream =>
      }
      Disconnect();
    }

    /** addMessageListener: appends a listener that is not yet registered; a duplicate is refused. */
    method AddMessageListener(listener: ListenerId)
      requires Valid()
      modifies this
      ensures Valid()
      ensures listeners == if listener in old(listeners) then old(listeners) else old(listeners) + [listener]
      ensures listener in listeners
      ensures isConnected == old(isConnected) && written == old(written)
      ensures writerOpen == old(writerOpen) && readerOpen == old(readerOpen) && socketOpen == old(socketOpen)
    {
      if listener !in listeners {
        listeners := listeners + [listener];
      }
    }

    /** removeMessageListener: takes the listener out if it is registered, otherwise a no-op. */
    method RemoveMessageListener(listener: ListenerId)
      requires Valid()
      modifies this
      ensures Valid()
      ensures listeners == RemoveFirst(old(listeners), listener)
      ensures listener !in listeners
      ensures listener !in old(listeners) ==> listeners == old(listeners)
      ensures forall l :: l != listener ==> (l in listeners <==> l in old(listeners))
      ensures isConnected == old(isConnected) && written == old(written)
      ensures writerOpen == old(writerOpen) && readerOpen == old(readerOpen) && socketOpen == old(socketOpen)
    {
      RemoveFirstNoDuplicates(listeners, listener);
      listeners := RemoveFirst(listeners, listener);
    }

    /**
     * notifyMessageListeners: every registered listener is handed the
     * message once, in registration order.
     */
    method NotifyMessageListeners(message: string) returns (deliveries: seq<Delivery>)
      requires Valid()
      ensures |deliveries| == |listeners|
      ensures forall i :: 0 <= i < |deliveries| ==> deliveries[i] == Delivery(listeners[i], message)
      ensures NoDuplicates(deliveries)
      ensures forall l :: l in listeners <==> Delivery(l, message) in deliveries
    {
      deliveries := [];
      for i := 0 to |listeners|
        invariant |deliveries| == i
        invariant forall k :: 0 <= k < i ==> deliveries[k] == Delivery(listeners[k], message)
      {
        deliveries := deliveries + [Delivery(listeners[i], message)];
      }
      forall l | Delivery(l, message) in deliveries
        ensures l in listeners
      {
        var k :| 0 <= k < |deliveries| && deliveries[k] == Delivery(l, message);
        assert listeners[k] == l;
      }
    }
  }

  /** The static `instance` slot of ServerConnectionManager. */
  class Registry {
    var instance: Manager?

    constructor ()
      ensures instance == null
    {
      instance := null;
    }

    /**
     * getInstance: the current instance when there is one for the same
     * username; otherwise a new, disconnected manager replaces it. The
     * replaced manager is not disconnected: it is left as it was.
     */
    method GetInstance(username: string) returns (m: Manager)
      modifies this
      ensures instance == m
      ensures old(instance) != null && old(instance).username == username ==> m == old(instance)
      ensures old(instance) == null || old(instance).username != username ==>
        && fresh(m) && m.Valid() && m.username == username
        && !m.isConnected && m.listeners == [] && m.written == []
      ensures old(instance) != null ==> unchanged(old(instance))
    {
      if instance == null || instance.username != username {
        instance := new Manager(username);
      }
      return instance;
    }
  }
}
