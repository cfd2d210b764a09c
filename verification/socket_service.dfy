/**
 * The client's socket session: an optional connection to the real-time
 * server and the ordered list of message handlers. The transport is an
 * abstract log of what the session did to it: sockets opened and closed,
 * events emitted, and handler invocations for incoming messages.
 */
module SocketService {
  import opened Wrappers
  import opened Types

  const DefaultSocketUrl: string := "http://localhost:3000"

  /** `process.env.NEXT_PUBLIC_SOCKET_URL || 'http://localhost:3000'`: an unset or empty setting falls back. */
  function SocketUrl(env: Option<string>): string {
    if env.Some? && env.value != "" then env.value else DefaultSocketUrl
  }

  /** A registered handler; handlers are told apart by identity, as JavaScript compares functions. */
  type HandlerId = nat

  /** A socket the session opened: `id` tells apart the sockets of successive `io(...)` calls. */
  datatype Socket = Socket(id: nat, url: string)

  /** The events the client emits. */
  datatype ClientEvent =
    | Join(chatId: string)
    | Leave(chatId: string)
    | Publish(chatId: string, message: ChatMessage)

  /** The event name on the wire. */
  function EventName(e: ClientEvent): string {
    match e
    case Join(_) => "join-chat"
    case Leave(_) => "leave-chat"
    case Publish(_, _) => "new-message"
  }

  /** What the session does to the outside world. */
  datatype Effect =
    | Opened(socket: Socket)
    | Closed(socket: Socket)
    | Emitted(socket: Socket, event: ClientEvent)
    | Handled(handler: HandlerId, message: ChatMessage)

  datatype Session = Session(socket: Option<Socket>, messageHandlers: seq<HandlerId>, log: seq<Effect>)

  /** The exported singleton before any call. */
  const Initial: Session := Session(None, [], [])

  /**
   * `connect()`: opens a socket to the configured URL unless one exists, and
   * returns the session's socket. `nextId` tells apart a newly opened socket.
   */
  function Connect(s: Session, nextId: nat, env: Option<string>): (r: (Session, Socket))
    ensures r.0.socket == Some(r.1)
    ensures r.0.messageHandlers == s.messageHandlers
    ensures s.socket.Some? ==> r.1 == s.socket.value && r.0 == s
    ensures s.socket.None? ==>
      r.1 == Socket(nextId, SocketUrl(env)) && r.0.log == s.log + [Opened(r.1)]
  {
    if s.socket.Some? then (s, s.socket.value)
    else
      var sock := Socket(nextId, SocketUrl(env));
      (s.(socket := Some(sock), log := s.log + [Opened(sock)]), sock)
  }

  /** The first `connect` of the fresh singleton opens exactly one socket, to the configured or default URL. */
  lemma FirstConnect(nextId: nat, env: Option<string>)
    ensures Initial.socket.None? && Initial.messageHandlers == [] && Initial.log == []
    ensures var (s1, sock) := Connect(Initial, nextId, env);
      && sock == Socket(nextId, SocketUrl(env))
      && s1 == Session(Some(sock), [], [Opened(sock)])
  {
  }

  /** Connecting again returns the same socket and opens nothing. */
  lemma ConnectIdempotent(s: Session, nextId: nat, env: Option<string>, nextId': nat, env': Option<string>)
    ensures var (s1, sock) := Connect(s, nextId, env);
      Connect(s1, nextId', env') == (s1, sock)
  {
  }

  /** `disconnect()`: closes and forgets the socket, if there is one. */
  function Disconnect(s: Session): (r: Session)
    ensures r.socket.None?
    ensures r.messageHandlers == s.messageHandlers
    ensures s.socket.None? ==> r == s
    ensures s.socket.Some? ==> r.log == s.log + [Closed(s.socket.value)]
  {
    match s.socket
    case None => s
    case Some(sock) => s.(socket := None, log := s.log + [Closed(sock)])
  }

  /** Disconnecting twice is disconnecting once. */
  lemma DisconnectIdempotent(s: Session)
    ensures Disconnect(Disconnect(s)) == Disconnect(s)
  {
  }

  /** Subscriptions survive a disconnect followed by a connect, which opens a new socket. */
  lemma HandlersSurviveReconnect(s: Session, nextId: nat, env: Option<string>)
    ensures var (s1, sock) := Connect(Disconnect(s), nextId, env);
      && s1.messageHandlers == s.messageHandlers
      && sock == Socket(nextId, SocketUrl(env))
      && s1.socket == Some(sock)
      && s1.log == Disconnect(s).log + [Opened(sock)]
  {
  }

  /** `socket.emit(...)` when connected; nothing otherwise. */
  function Emit(s: Session, e: ClientEvent): (r: Session)
    ensures r.socket == s.socket && r.messageHandlers == s.messageHandlers
    ensures s.socket.None? ==> r == s
    ensures s.socket.Some? ==> r.log == s.log + [Emitted(s.socket.value, e)]
  {
    match s.socket
    case None => s
    case Some(sock) => s.(log := s.log + [Emitted(sock, e)])
  }

  /** `joinChat(chatId)`: emits `('join-chat', chatId)` when connected. */
  function JoinChat(s: Session, chatId: string): (r: Session)
    ensures s.socket.None? ==> r == s
    ensures s.socket.Some? ==>
      r == s.(log := s.log + [Emitted(s.socket.value, Join(chatId))])
  {
    Emit(s, Join(chatId))
  }

  /** `leaveChat(chatId)`: emits `('leave-chat', chatId)` when connected. */
  function LeaveChat(s: Session, chatId: string): (r: Session)
    ensures s.socket.None? ==> r == s
    ensures s.socket.Some? ==>
      r == s.(log := s.log + [Emitted(s.socket.value, Leave(chatId))])
  {
    Emit(s, Leave(chatId))
  }

  /** `sendMessage(chatId, message)`: emits `('new-message', chatId, message)` when connected. */
  function SendMessage(s: Session, chatId: string, message: ChatMessage): (r: Session)
    ensures s.socket.None? ==> r == s
    ensures s.socket.Some? ==>
      r == s.(log := s.log + [Emitted(s.socket.value, Publish(chatId, message))])
  {
    Emit(s, Publish(chatId, message))
  }

  /** The three client events travel under distinct names on the wire. */
  lemma EventNames(chatId: string, message: ChatMessage)
    ensures EventName(Join(chatId)) == "join-chat"
    ensures EventName(Leave(chatId)) == "leave-chat"
    ensures EventName(Publish(chatId, message)) == "new-message"
    ensures forall e, e' :: EventName(e) == EventName(e') ==>
      (e.Join? && e'.Join?) || (e.Leave? && e'.Leave?) || (e.Publish? && e'.Publish?)
  {
  }

  /** After `disconnect`, joining, leaving and sending do nothing at all. */
  lemma DisconnectedEmitsNothing(s: Session, chatId: string, message: ChatMessage)
    ensures var d := Disconnect(s);
      && JoinChat(d, chatId) == d
      && LeaveChat(d, chatId) == d
      && SendMessage(d, chatId, message) == d
  {
  }

  /**
   * After `connect`, each emit goes out on exactly the socket `connect`
   * returned and adds one entry to the log; socket and handlers stay as they are.
   */
  lemma ConnectedEmitsOnSocket(s: Session, nextId: nat, env: Option<string>, chatId: string, message: ChatMessage)
    ensures var (c, sock) := Connect(s, nextId, env);
      && JoinChat(c, chatId).log == c.log + [Emitted(sock, Join(chatId))]
      && LeaveChat(c, chatId).log == c.log + [Emitted(sock, Leave(chatId))]
      && SendMessage(c, chatId, message).log == c.log + [Emitted(sock, Publish(chatId, message))]
      && JoinChat(c, chatId).socket == Some(sock) && JoinChat(c, chatId).messageHandlers == s.messageHandlers
  {
  }

  /** Joining a chat and then leaving it logs the two events in that order on the same socket. */
  lemma JoinThenLeave(s: Session, chatId: string)
    requires s.socket.Some?
    ensures LeaveChat(JoinChat(s, chatId), chatId).log
         == s.log + [Emitted(s.socket.value, Join(chatId)), Emitted(s.socket.value, Leave(chatId))]
  {
  }

  /** `onMessage(handler)`: registers the handler after the existing ones. */
  function OnMessage(s: Session, h: HandlerId): (r: Session)
    ensures r.messageHandlers == s.messageHandlers + [h]
    ensures r.socket == s.socket && r.log == s.log
  {
    s.(messageHandlers := s.messageHandlers + [h])
  }

  /** `handlers.filter(x => x !== h)`. */
  function Without(hs: seq<HandlerId>, h: HandlerId): (r: seq<HandlerId>)
    ensures forall x :: x in r <==> x in hs && x != h
    ensures forall x :: x != h ==> multiset(r)[x] == multiset(hs)[x]
  {
    if |hs| == 0 then []
    else
      assert hs == [hs[0]] + hs[1..];
      (if hs[0] == h then [] else [hs[0]]) + Without(hs[1..], h)
  }

  /** Removing keeps the order of the remaining handlers. */
  lemma {:induction false} WithoutConcat(a: seq<HandlerId>, b: seq<HandlerId>, h: HandlerId)
    ensures Without(a + b, h) == Without(a, h) + Without(b, h)
  {
    if |a| == 0 {
      assert a + b == b;
    } else {
      assert (a + b)[0] == a[0] && (a + b)[1..] == a[1..] + b;
      WithoutConcat(a[1..], b, h);
    }
  }

  lemma {:induction false} WithoutAbsent(hs: seq<HandlerId>, h: HandlerId)
    requires h !in hs
    ensures Without(hs, h) == hs
  {
    if |hs| > 0 {
      WithoutAbsent(hs[1..], h);
      assert hs == [hs[0]] + hs[1..];
    }
  }

  /** The function `onMessage` returns: removes every registration of the handler. */
  function Unsubscribe(s: Session, h: HandlerId): (r: Session)
    ensures h !in r.messageHandlers
    ensures forall x :: x != h ==> multiset(r.messageHandlers)[x] == multiset(s.messageHandlers)[x]
    ensures r.socket == s.socket && r.log == s.log
  {
    s.(messageHandlers := Without(s.messageHandlers, h))
  }

  /** Subscribing a new handler and unsubscribing it restores the session. */
  lemma SubscribeThenUnsubscribe(s: Session, h: HandlerId)
    requires h !in s.messageHandlers
    ensures Unsubscribe(OnMessage(s, h), h) == s
  {
    WithoutConcat(s.messageHandlers, [h], h);
    WithoutAbsent(s.messageHandlers, h);
  }

  /** Unsubscribing keeps the handlers registered before and after it in their order. */
  lemma UnsubscribeKeepsOrder(before: seq<HandlerId>, after: seq<HandlerId>, h: HandlerId)
    requires h !in before && h !in after
    ensures Without(before + [h] + after, h) == before + after
  {
    assert Without([h], h) == [] by {
      assert [h][1..] == [];
    }
    WithoutConcat(before, [h], h);
    WithoutAbsent(before, h);
    assert Without(before + [h], h) == before;
    WithoutConcat(before + [h], after, h);
    WithoutAbsent(after, h);
  }

  /** `messageHandlers.forEach(handler => handler(message))`. */
  function Dispatch(hs: seq<HandlerId>, m: ChatMessage): (r: seq<Effect>)
    ensures |r| == |hs|
    ensures forall i :: 0 <= i < |hs| ==> r[i] == Handled(hs[i], m)
  {
    if |hs| == 0 then [] else [Handled(hs[0], m)] + Dispatch(hs[1..], m)
  }

  /**
   * An incoming `message-received` on the open socket invokes every
   * registered handler, once per registration and in registration order.
   */
  function MessageReceived(s: Session, m: ChatMessage): (r: Session)
    ensures r.socket == s.socket && r.messageHandlers == s.messageHandlers
    ensures s.socket.None? ==> r == s
    ensures s.socket.Some? ==> r.log == s.log + Dispatch(s.messageHandlers, m)
  {
    if s.socket.None? then s else s.(log := s.log + Dispatch(s.messageHandlers, m))
  }

  /** After unsubscribing, a handler is no longer invoked. */
  lemma UnsubscribedHandlerNotInvoked(s: Session, h: HandlerId, m: ChatMessage)
    requires s.socket.Some?
    ensures var s1 := Unsubscribe(s, h);
      var r := MessageReceived(s1, m);
      forall i :: |s1.log| <= i < |r.log| ==> r.log[i].Handled? && r.log[i].handler != h
  {
    var s1 := Unsubscribe(s, h);
    var d := Dispatch(s1.messageHandlers, m);
    forall i | |s1.log| <= i < |s1.log| + |d|
      ensures (s1.log + d)[i].Handled? && (s1.log + d)[i].handler != h
    {
      assert (s1.log + d)[i] == d[i - |s1.log|];
      assert s1.messageHandlers[i - |s1.log|] in s1.messageHandlers;
    }
  }
}
