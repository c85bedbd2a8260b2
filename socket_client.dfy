/**
 * `frontend/src/services/socketService.js`: the one `SocketService` instance
 * that owns the client's Socket.IO connection. The service's state is the
 * `socket` it created (or none) and its `connected` flag; the Socket.IO client
 * socket is a value holding where it connects, the token it authenticates
 * with, its own `connected` property, its listeners and what was emitted on
 * it. The store's token and `VITE_API_URL` are parameters; socket.io firing
 * `connect` or `disconnect` is a method of its own.
 */
module SocketClient {
  import opened Wrappers
  import opened Text

  /** The URL used when `VITE_API_URL` is not set. */
  const DefaultUrl := "http://localhost:3000"

  /** A listener's callback: one of the three `init` registers, or one a caller passed (told apart by an id). */
  datatype Callback = OnConnect | OnDisconnect | OnError | External(id: nat)

  datatype Listener = Listener(event: string, callback: Callback)

  /** One `socket.emit(event, data)`; `data` is absent for `emit('get_conversations')`. */
  datatype Emission = Emission(event: string, data: Option<string>)

  datatype Socket = Socket(url: string, token: string, connected: bool, listeners: seq<Listener>, sent: seq<Emission>)

  /** `this.socket` and `this.connected`. */
  datatype Service = Service(socket: Option<Socket>, connected: bool)

  /** The handlers `init` registers on a new socket. */
  function BaseListeners(): seq<Listener> {
    [Listener("connect", OnConnect), Listener("disconnect", OnDisconnect), Listener("error", OnError)]
  }

  /** The service after `new SocketService()`. */
  function Fresh(): Service {
    Service(None, false)
  }

  /**
   * The flag agrees with the socket: it is set exactly while a socket exists
   * and socket.io reports it connected, and a socket keeps `init`'s handlers.
   */
  predicate Consistent(s: Service) {
    (s.connected <==> s.socket.Some? && s.socket.value.connected) &&
    (s.socket.Some? ==> forall l | l in BaseListeners() :: l in s.socket.value.listeners)
  }

  /** `isConnected()`. */
  predicate IsConnected(s: Service) {
    s.connected && s.socket.Some? && s.socket.value.connected
  }

  /** With the flag in step with the socket, `isConnected()` is the flag alone. */
  lemma IsConnectedIsTheFlag(s: Service)
    requires Consistent(s)
    ensures IsConnected(s) <==> s.connected
  {
  }

  /**
   * `init()`: nothing when a socket exists or the token is falsy; otherwise a
   * new, not yet connected socket to the configured URL carrying the token,
   * with `init`'s three handlers and nothing sent.
   */
  function AfterInit(s: Service, token: Option<string>, apiUrl: Option<string>): (r: Service)
    ensures s.socket.Some? || !Truthy(token) ==> r == s
    ensures s.socket.None? && Truthy(token) ==>
              r.socket.Some? && r.socket.value.token == token.value && r.connected == s.connected &&
              !r.socket.value.connected && r.socket.value.sent == [] &&
              r.socket.value.url == (if Truthy(apiUrl) then apiUrl.value else DefaultUrl)
    ensures Consistent(s) ==> Consistent(r)
  {
    if s.socket.Some? || !Truthy(token) then s
    else Service(Some(Socket(OrDefault(apiUrl, DefaultUrl), token.value, false, BaseListeners(), [])), s.connected)
  }

  /** Calling `init` again, with any token, changes nothing once the first call made a socket. */
  lemma InitIsIdempotent(s: Service, token: Option<string>, token': Option<string>, apiUrl: Option<string>)
    requires AfterInit(s, token, apiUrl).socket.Some?
    ensures AfterInit(AfterInit(s, token, apiUrl), token', apiUrl) == AfterInit(s, token, apiUrl)
  {
  }

  /** Without a token there is no socket, so nothing can be emitted or listened for. */
  lemma InitWithoutTokenLeavesNoSocket(token: Option<string>, apiUrl: Option<string>, event: string, data: Option<string>)
    requires !Truthy(token)
    ensures AfterInit(Fresh(), token, apiUrl).socket.None?
    ensures AfterEmit(AfterInit(Fresh(), token, apiUrl), event, data) == Fresh()
  {
  }

  /** socket.io fires `connect`: the socket is connected and `init`'s handler sets the flag. */
  function AfterConnectEvent(s: Service): (r: Service)
    ensures s.socket.None? ==> r == s
    ensures s.socket.Some? ==> r.socket.Some? && r.socket.value.connected
    ensures Consistent(s) && s.socket.Some? ==> r.connected
    ensures s.socket.Some? ==> r.socket.value.listeners == s.socket.value.listeners && r.socket.value.sent == s.socket.value.sent
    ensures Consistent(s) ==> Consistent(r)
  {
    if s.socket.None? then s
    else
      var sock := s.socket.value;
      Service(Some(sock.(connected := true)), if Listener("connect", OnConnect) in sock.listeners then true else s.connected)
  }

  /** socket.io fires `disconnect` (the server or the transport dropped it): the flag is cleared, the socket kept. */
  function AfterDisconnectEvent(s: Service): (r: Service)
    ensures s.socket.None? ==> r == s
    ensures Consistent(s) && s.socket.Some? ==> r.socket.Some? && !r.socket.value.connected && !r.connected
    ensures s.socket.Some? ==>
              r.socket.Some? && r.socket.value.listeners == s.socket.value.listeners && r.socket.value.sent == s.socket.value.sent
    ensures Consistent(s) ==> Consistent(r)
  {
    if s.socket.None? then s
    else
      var sock := s.socket.value;
      Service(Some(sock.(connected := false)), if Listener("disconnect", OnDisconnect) in sock.listeners then false else s.connected)
  }

  /** `disconnect()`: the socket dropped and the flag cleared; nothing at all without a socket. */
  function AfterDisconnect(s: Service): (r: Service)
    ensures r.socket.None? && !IsConnected(r)
    ensures s.socket.None? ==> r == s
    ensures Consistent(s) ==> r == Fresh()
  {
    if s.socket.None? then s else Service(None, false)
  }

  /** `emit(event, data)`: sent on the socket while connected, dropped otherwise. */
  function AfterEmit(s: Service, event: string, data: Option<string>): (r: Service)
    ensures !IsConnected(s) ==> r == s
    ensures IsConnected(s) ==>
              r.connected && r.socket.Some? && r.socket.value == s.socket.value.(sent := s.socket.value.sent + [Emission(event, data)])
    ensures Consistent(s) ==> Consistent(r)
  {
    if !IsConnected(s) then s
    else
      var sock := s.socket.value;
      Service(Some(sock.(sent := sock.sent + [Emission(event, data)])), s.connected)
  }

  /** After `disconnect()`, nothing is emitted until a new `init` and a new `connect`. */
  lemma NoEmitAfterDisconnect(s: Service, event: string, data: Option<string>)
    ensures AfterEmit(AfterDisconnect(s), event, data) == AfterDisconnect(s)
  {
  }

  /** `on(event, callback)`: a listener added to the socket, or nothing when there is none. */
  function AfterOn(s: Service, event: string, callback: nat): (r: Service)
    ensures s.socket.None? ==> r == s
    ensures s.socket.Some? ==>
              r.connected == s.connected && r.socket.Some? &&
              r.socket.value == s.socket.value.(listeners := s.socket.value.listeners + [Listener(event, External(callback))])
    ensures Consistent(s) ==> Consistent(r)
  {
    if s.socket.None? then s
    else
      var sock := s.socket.value;
      Service(Some(sock.(listeners := sock.listeners + [Listener(event, External(callback))])), s.connected)
  }

  /** The listeners without the first one equal to `l`. */
  function RemoveFirst(ls: seq<Listener>, l: Listener): (r: seq<Listener>)
    ensures l !in ls ==> r == ls
    ensures l in ls ==> multiset(r) == multiset(ls) - multiset{l}
  {
    if ls == [] then []
    else if ls[0] == l then
      assert ls == [ls[0]] + ls[1..];
      ls[1..]
    else
      assert ls == [ls[0]] + ls[1..];
      [ls[0]] + RemoveFirst(ls[1..], l)
  }

  /** `off(event, callback)`: the first such listener removed from the socket, or nothing when there is none. */
  function AfterOff(s: Service, event: string, callback: nat): (r: Service)
    ensures s.socket.None? ==> r == s
    ensures s.socket.Some? ==>
              r.connected == s.connected && r.socket.Some? && r.socket.value.connected == s.socket.value.connected &&
              r.socket.value.sent == s.socket.value.sent &&
              multiset(r.socket.value.listeners) ==
                multiset(s.socket.value.listeners) - multiset{Listener(event, External(callback))}
    ensures Consistent(s) ==> Consistent(r)
  {
    if s.socket.None? then s
    else
      var sock := s.socket.value;
      var l := Listener(event, External(callback));
      var ls := RemoveFirst(sock.listeners, l);
      assert forall b | b in BaseListeners() && b in sock.listeners :: b in ls by {
        forall b | b in BaseListeners() && b in sock.listeners ensures b in ls {
          assert b != l;
          assert multiset(sock.listeners)[b] > 0;
          if l in sock.listeners {
            assert multiset(ls)[b] == multiset(sock.listeners)[b];
          }
        }
      }
      Service(Some(sock.(listeners := ls)), s.connected)
  }

  lemma {:induction false} RemoveFirstOfAppended(ls: seq<Listener>, l: Listener)
    requires l !in ls
    ensures RemoveFirst(ls + [l], l) == ls
  {
    if ls != [] {
      assert (ls + [l])[1..] == ls[1..] + [l];
      RemoveFirstOfAppended(ls[1..], l);
    } else {
      assert [l][1..] == [];
    }
  }

  /** `off` undoes an `on` of a callback that was not listening for that event yet. */
  lemma OffUndoesOn(s: Service, event: string, callback: nat)
    requires s.socket.Some? ==> Listener(event, External(callback)) !in s.socket.value.listeners
    ensures AfterOff(AfterOn(s, event, callback), event, callback) == s
  {
    if s.socket.Some? {
      RemoveFirstOfAppended(s.socket.value.listeners, Listener(event, External(callback)));
    }
  }

  class SocketService {
    var socket: Option<Socket>
    var connected: bool

    function State(): Service
      reads this
    {
      Service(socket, connected)
    }

    constructor ()
      ensures State() == Fresh() && Consistent(State())
    {
      socket := None;
      connected := false;
    }

    /** `isConnected()`. */
    function IsConnected(): (b: bool)
      reads this
      ensures b <==> connected && socket.Some? && socket.value.connected
    {
      connected && socket.Some? && socket.value.connected
    }

    method Init(token: Option<string>, apiUrl: Option<string>)
      modifies this
      ensures State() == AfterInit(old(State()), token, apiUrl)
    {
      if socket.Some? {
        return;
      }
      if !Truthy(token) {
        return;
      }
      socket := Some(Socket(OrDefault(apiUrl, DefaultUrl), token.value, false, BaseListeners(), []));
    }

    /** socket.io firing `connect` on the service's socket. */
    method ConnectEvent()
      modifies this
      ensures State() == AfterConnectEvent(old(State()))
    {
      if socket.None? {
        return;
      }
      var sock := socket.value;
      socket := Some(sock.(connected := true));
      if Listener("connect", OnConnect) in sock.listeners {
        connected := true;
      }
    }

    /** socket.io firing `disconnect` on the service's socket. */
    method DisconnectEvent()
      modifies this
      ensures State() == AfterDisconnectEvent(old(State()))
    {
      if socket.None? {
        return;
      }
      var sock := socket.value;
      socket := Some(sock.(connected := false));
      if Listener("disconnect", OnDisconnect) in sock.listeners {
        connected := false;
      }
    }

    method Disconnect()
      modifies this
      ensures State() == AfterDisconnect(old(State()))
    {
      if socket.Some? {
        socket := None;
        connected := false;
      }
    }

    method Emit(event: string, data: Option<string>)
      modifies this
      ensures State() == AfterEmit(old(State()), event, data)
    {
      if !IsConnected() {
        return;
      }
      var sock := socket.value;
      socket := Some(sock.(sent := sock.sent + [Emission(event, data)]));
    }

    method On(event: string, callback: nat)
      modifies this
      ensures State() == AfterOn(old(State()), event, callback)
    {
      if socket.None? {
        return;
      }
      var sock := socket.value;
      socket := Some(sock.(listeners := sock.listeners + [Listener(event, External(callback))]));
    }

    method Off(event: string, callback: nat)
      modifies this
      ensures State() == AfterOff(old(State()), event, callback)
    {
      if socket.None? {
        return;
      }
      var sock := socket.value;
      socket := Some(sock.(listeners := RemoveFirst(sock.listeners, Listener(event, External(callback)))));
    }
  }
}
