/**
 * The front end's chat store (`stores/chatStore.js`): the conversation list, the
 * per-conversation message lists, the active conversation and the loading flags,
 * updated in place by the actions and by the socket event handlers. Calls to
 * `socketService.emit` are recorded in `requests`; whether the service forwards
 * them is `SocketClient`'s concern.
 */
module ChatClient {
  import opened Wrappers
  import opened Seqs
  import opened Text
  import SocketClient

  /** A conversation as the list holds it (`created_at`, `last_message`, `last_message_time`). */
  datatype ClientConversation = ClientConversation(
    id: int, createdAt: int, lastMessage: Option<string>, lastMessageTime: Option<int>)

  /** A message as the lists hold it. */
  datatype ClientMessage = ClientMessage(id: int, senderId: int, content: string, createdAt: int)

  /** The events the store emits, with their payloads. */
  datatype Request =
    | GetConversationsRequest
    | GetMessagesRequest(conversationId: int, limit: int, offset: int)
    | LeaveRequest(conversationId: int)
    | SendRequest(conversationId: int, content: string)
    | CreateRequest(participantIds: seq<int>)

  const DefaultLimit := 50
  const DefaultOffset := 0

  /** `last_message_time` if set, else `created_at`: the time `sortedConversations` orders by. */
  function DisplayTime(c: ClientConversation): int {
    if c.lastMessageTime.Some? then c.lastMessageTime.value else c.createdAt
  }

  function MessageTime(m: ClientMessage): int {
    m.createdAt
  }

  /** JavaScript truthiness of `activeConversation` (null and 0 are falsy). */
  predicate IsActive(active: Option<int>) {
    active.Some? && active.value != 0
  }

  predicate HasId(cs: seq<ClientConversation>, id: int) {
    exists k | 0 <= k < |cs| :: cs[k].id == id
  }

  predicate UniqueIds(cs: seq<ClientConversation>) {
    forall i, j | 0 <= i < j < |cs| :: cs[i].id != cs[j].id
  }

  /** `findIndex(c => c.id === id)`, `None` for -1. */
  function FindIndex(cs: seq<ClientConversation>, id: int): (r: Option<nat>)
    ensures r.None? <==> !HasId(cs, id)
    ensures r.Some? ==> r.value < |cs| && cs[r.value].id == id && forall j | 0 <= j < r.value :: cs[j].id != id
  {
    if cs == [] then None
    else if cs[0].id == id then Some(0)
    else
      var rest := FindIndex(cs[1..], id);
      assert forall k | 1 <= k < |cs| :: cs[k] == cs[1..][k - 1];
      if rest.None? then None else Some(rest.value + 1)
  }

  /** The list after a conversation event: `push` unless `some(c => c.id === conv.id)`. */
  function AddIfAbsent(cs: seq<ClientConversation>, c: ClientConversation): (r: seq<ClientConversation>)
    ensures HasId(r, c.id)
    ensures HasId(cs, c.id) ==> r == cs
    ensures !HasId(cs, c.id) ==> r == cs + [c]
    ensures UniqueIds(cs) ==> UniqueIds(r)
  {
    if HasId(cs, c.id) then cs
    else
      var r := cs + [c];
      assert r[|cs|].id == c.id;
      r
  }

  /** Adding a conversation that is already listed changes nothing. */
  lemma AddIfAbsentIdempotent(cs: seq<ClientConversation>, c: ClientConversation)
    ensures AddIfAbsent(AddIfAbsent(cs, c), c) == AddIfAbsent(cs, c)
  {
  }

  /** Entering `next` leaves the previous conversation only when one was active and it differs. */
  function LeaveBefore(active: Option<int>, next: int): (r: seq<Request>)
    ensures |r| <= 1
    ensures r != [] <==> IsActive(active) && active.value != next
    ensures r != [] ==> r == [LeaveRequest(active.value)]
  {
    if IsActive(active) && active.value != next then [LeaveRequest(active.value)] else []
  }

  /** The message lists after `new_message`: `m` appended to its conversation's list, the others untouched. */
  function AppendMessage(msgs: map<int, seq<ClientMessage>>, conversationId: int, m: ClientMessage): (r: map<int, seq<ClientMessage>>)
    ensures r.Keys == msgs.Keys + {conversationId}
    ensures conversationId in msgs ==> r[conversationId] == msgs[conversationId] + [m]
    ensures conversationId !in msgs ==> r[conversationId] == [m]
    ensures forall id | id in msgs && id != conversationId :: r[id] == msgs[id]
  {
    msgs[conversationId := (if conversationId in msgs then msgs[conversationId] else []) + [m]]
  }

  /** The conversation list after `new_message`: only the first entry with that id takes the message's content and time. */
  function WithLastMessage(cs: seq<ClientConversation>, conversationId: int, m: ClientMessage): (r: seq<ClientConversation>)
    ensures |r| == |cs|
    ensures forall k | 0 <= k < |cs| :: r[k].id == cs[k].id && r[k].createdAt == cs[k].createdAt
    ensures forall k | 0 <= k < |cs| && FindIndex(cs, conversationId) != Some(k) :: r[k] == cs[k]
    ensures FindIndex(cs, conversationId).Some? ==>
              var k := FindIndex(cs, conversationId).value;
              r[k].lastMessage == Some(m.content) && r[k].lastMessageTime == Some(m.createdAt)
    ensures !HasId(cs, conversationId) ==> r == cs
  {
    var k := FindIndex(cs, conversationId);
    if k.None? then cs
    else cs[k.value := cs[k.value].(lastMessage := Some(m.content), lastMessageTime := Some(m.createdAt))]
  }

  /** Updating the last message keeps the ids, so it keeps them unique; the updated conversation now sorts by the message's time. */
  lemma WithLastMessageKeepsIds(cs: seq<ClientConversation>, conversationId: int, m: ClientMessage)
    requires HasId(cs, conversationId)
    ensures UniqueIds(cs) ==> UniqueIds(WithLastMessage(cs, conversationId, m))
    ensures HasId(WithLastMessage(cs, conversationId, m), conversationId)
    ensures exists k | 0 <= k < |cs| :: WithLastMessage(cs, conversationId, m)[k].id == conversationId &&
              DisplayTime(WithLastMessage(cs, conversationId, m)[k]) == m.createdAt
  {
    var k := FindIndex(cs, conversationId).value;
    var r := WithLastMessage(cs, conversationId, m);
    assert r[k].id == conversationId && DisplayTime(r[k]) == m.createdAt;
  }

  /**
   * The `activeMessages` getter, over the store's `activeConversation` and
   * `messages`: the active conversation's messages, oldest first; none
   * without an active conversation.
   */
  function ActiveList(active: Option<int>, msgs: map<int, seq<ClientMessage>>): (r: seq<ClientMessage>)
    ensures !IsActive(active) ==> r == []
    ensures IsActive(active) && active.value !in msgs ==> r == []
    ensures IsActive(active) && active.value in msgs ==> multiset(r) == multiset(msgs[active.value])
    ensures SortedBy(r, MessageTime)
  {
    if !IsActive(active) then []
    else
      var list := if active.value in msgs then msgs[active.value] else [];
      SortBy(list, MessageTime)
  }

  /** A message that arrives for the active conversation is among the active messages. */
  lemma NewMessageIsListed(active: Option<int>, msgs: map<int, seq<ClientMessage>>, m: ClientMessage)
    requires IsActive(active)
    ensures m in ActiveList(active, AppendMessage(msgs, active.value, m))
  {
    var list := AppendMessage(msgs, active.value, m)[active.value];
    assert list[|list| - 1] == m;
    assert m in multiset(list);
    assert m in multiset(ActiveList(active, AppendMessage(msgs, active.value, m)));
  }

  /**
   * The store's six socket handlers, in the order `initSocketConnection`
   * registers them (and `clearSocketConnection` removes them); a handler's
   * callback id is its position in this list.
   */
  function HandlerEvents(): seq<string> {
    ["conversations_list", "messages_list", "new_message", "conversation_created", "new_conversation", "error"]
  }

  function HandlerListener(k: nat): SocketClient.Listener
    requires k < |HandlerEvents()|
  {
    SocketClient.Listener(HandlerEvents()[k], SocketClient.External(k))
  }

  function HandlerListeners(): (r: seq<SocketClient.Listener>)
    ensures |r| == |HandlerEvents()| && forall k | 0 <= k < |r| :: r[k] == HandlerListener(k)
  {
    seq(|HandlerEvents()|, k requires 0 <= k < |HandlerEvents()| => HandlerListener(k))
  }

  /** The first `n` handlers registered with `socketService.on`, in order. */
  function Registered(s: SocketClient.Service, n: nat): (r: SocketClient.Service)
    requires n <= |HandlerEvents()|
    ensures s.socket.None? ==> r == s
    ensures s.socket.Some? ==>
              r.connected == s.connected && r.socket.Some? &&
              r.socket.value == s.socket.value.(listeners := s.socket.value.listeners + HandlerListeners()[..n])
  {
    if n == 0 then
      assert s.socket.Some? ==> s.socket.value.listeners + HandlerListeners()[..0] == s.socket.value.listeners;
      s
    else
      var r := SocketClient.AfterOn(Registered(s, n - 1), HandlerEvents()[n - 1], n - 1);
      assert s.socket.Some? ==> HandlerListeners()[..n] == HandlerListeners()[..n - 1] + [HandlerListener(n - 1)];
      r
  }

  /** The handlers from the `k`-th on removed with `socketService.off`, in order. */
  function Unregistered(s: SocketClient.Service, k: nat): SocketClient.Service
    requires k <= |HandlerEvents()|
    decreases |HandlerEvents()| - k
  {
    if k == |HandlerEvents()| then s
    else Unregistered(SocketClient.AfterOff(s, HandlerEvents()[k], k), k + 1)
  }

  /** `initSocketConnection()`: `socketService.init()`, then the six handlers registered. */
  function AfterInitSocketConnection(s: SocketClient.Service, token: Option<string>, apiUrl: Option<string>): SocketClient.Service {
    Registered(SocketClient.AfterInit(s, token, apiUrl), |HandlerEvents()|)
  }

  /** `clearSocketConnection()`: the six handlers removed, then `socketService.disconnect()`. */
  function AfterClearSocketConnection(s: SocketClient.Service): (r: SocketClient.Service)
    ensures r.socket.None? && !SocketClient.IsConnected(r)
    ensures s.socket.Some? || !s.connected ==> r == SocketClient.Fresh()
  {
    UnregisteredKeeps(s, 0);
    SocketClient.AfterDisconnect(Unregistered(s, 0))
  }

  lemma {:induction false} UnregisteredKeeps(s: SocketClient.Service, k: nat)
    requires k <= |HandlerEvents()|
    ensures Unregistered(s, k).connected == s.connected
    ensures Unregistered(s, k).socket.None? <==> s.socket.None?
    decreases |HandlerEvents()| - k
  {
    if k < |HandlerEvents()| {
      UnregisteredKeeps(SocketClient.AfterOff(s, HandlerEvents()[k], k), k + 1);
    }
  }

  /**
   * Once a token is there, initialising the connection leaves a new socket
   * listening with `init`'s own handlers followed by the store's six, not yet
   * connected.
   */
  lemma InitRegistersHandlers(token: Option<string>, apiUrl: Option<string>)
    requires Truthy(token)
    ensures var r := AfterInitSocketConnection(SocketClient.Fresh(), token, apiUrl);
      r.socket.Some? && !SocketClient.IsConnected(r) &&
      r.socket.value.listeners == SocketClient.BaseListeners() + HandlerListeners() &&
      forall k | 0 <= k < |HandlerEvents()| :: HandlerListener(k) in r.socket.value.listeners
  {
    var r := AfterInitSocketConnection(SocketClient.Fresh(), token, apiUrl);
    assert HandlerListeners()[..|HandlerEvents()|] == HandlerListeners();
    forall k | 0 <= k < |HandlerEvents()| ensures HandlerListener(k) in r.socket.value.listeners {
      assert r.socket.value.listeners[|SocketClient.BaseListeners()| + k] == HandlerListener(k);
    }
  }

  /**
   * Initialising without a token registers nothing: `on` finds no socket, so
   * the store's handlers are lost, also for a later `init` that has a token.
   */
  lemma InitWithoutTokenRegistersNothing(token: Option<string>, token': Option<string>, apiUrl: Option<string>)
    requires !Truthy(token) && Truthy(token')
    ensures AfterInitSocketConnection(SocketClient.Fresh(), token, apiUrl) == SocketClient.Fresh()
    ensures var r := SocketClient.AfterInit(AfterInitSocketConnection(SocketClient.Fresh(), token, apiUrl), token', apiUrl);
      r.socket.Some? && forall k | 0 <= k < |HandlerEvents()| :: HandlerListener(k) !in r.socket.value.listeners
  {
    var r := SocketClient.AfterInit(SocketClient.Fresh(), token', apiUrl);
    forall k | 0 <= k < |HandlerEvents()| ensures HandlerListener(k) !in r.socket.value.listeners {
      assert r.socket.value.listeners == SocketClient.BaseListeners();
    }
  }

  /**
   * A second `initSocketConnection` on a live socket registers every handler
   * again: each of the store's events is then handled twice.
   */
  lemma SecondInitDuplicatesHandlers(token: Option<string>, apiUrl: Option<string>, k: nat)
    requires Truthy(token) && k < |HandlerEvents()|
    ensures var once := AfterInitSocketConnection(SocketClient.Fresh(), token, apiUrl);
      var twice := AfterInitSocketConnection(once, token, apiUrl);
      twice.socket.Some? && multiset(twice.socket.value.listeners)[HandlerListener(k)] == 2
  {
    SecondInitListeners(token, apiUrl);
    DoubledHandlerCount(k);
  }

  /** After two inits the socket holds its base listeners and the handlers twice over. */
  lemma SecondInitListeners(token: Option<string>, apiUrl: Option<string>)
    requires Truthy(token)
    ensures var once := AfterInitSocketConnection(SocketClient.Fresh(), token, apiUrl);
      var twice := AfterInitSocketConnection(once, token, apiUrl);
      twice.socket.Some? && twice.socket.value.listeners == SocketClient.BaseListeners() + HandlerListeners() + HandlerListeners()
  {
    var once := AfterInitSocketConnection(SocketClient.Fresh(), token, apiUrl);
    InitRegistersHandlers(token, apiUrl);
    var hs := HandlerListeners();
    assert hs[..|HandlerEvents()|] == hs;
    assert SocketClient.AfterInit(once, token, apiUrl) == once;
  }

  lemma DoubledHandlerCount(k: nat)
    requires k < |HandlerEvents()|
    ensures multiset(SocketClient.BaseListeners() + HandlerListeners() + HandlerListeners())[HandlerListener(k)] == 2
  {
    var hs := HandlerListeners();
    assert multiset(hs)[HandlerListener(k)] == 1 by {
      assert hs == hs[..k] + [hs[k]] + hs[k + 1..];
      assert HandlerListener(k) !in hs[..k];
      assert HandlerListener(k) !in hs[k + 1..];
    }
    assert multiset(SocketClient.BaseListeners())[HandlerListener(k)] == 0;
  }

  /** `off` of a listener in front of the others removes exactly that one. */
  lemma {:induction false} RemoveFirstBefore(ls: seq<SocketClient.Listener>, l: SocketClient.Listener, rest: seq<SocketClient.Listener>)
    requires l !in ls
    ensures SocketClient.RemoveFirst(ls + [l] + rest, l) == ls + rest
  {
    if ls != [] {
      assert (ls + [l] + rest)[1..] == ls[1..] + [l] + rest;
      assert ls + rest == [ls[0]] + (ls[1..] + rest);
      RemoveFirstBefore(ls[1..], l, rest);
    } else {
      assert [l] + rest == [l] + rest;
    }
  }

  /** On a live socket `off` only removes the first matching listener. */
  lemma OffOnSocket(s: SocketClient.Service, event: string, callback: nat)
    requires s.socket.Some?
    ensures SocketClient.AfterOff(s, event, callback) ==
              s.(socket := Some(s.socket.value.(listeners :=
                SocketClient.RemoveFirst(s.socket.value.listeners, SocketClient.Listener(event, SocketClient.External(callback))))))
  {
  }

  lemma {:induction false} UnregisterSuffix(s: SocketClient.Service, k: nat, ls: seq<SocketClient.Listener>)
    requires k <= |HandlerEvents()| && s.socket.Some?
    requires s.socket.value.listeners == ls + HandlerListeners()[k..]
    requires forall j | 0 <= j < |HandlerEvents()| :: HandlerListener(j) !in ls
    ensures Unregistered(s, k) == s.(socket := Some(s.socket.value.(listeners := ls)))
    decreases |HandlerEvents()| - k
  {
    var hs := HandlerListeners();
    if k == |HandlerEvents()| {
      assert hs[k..] == [];
      assert ls + [] == ls;
    } else {
      var sock := s.socket.value;
      assert hs[k..] == [hs[k]] + hs[k + 1..];
      assert ls + hs[k..] == ls + [hs[k]] + hs[k + 1..];
      RemoveFirstBefore(ls, hs[k], hs[k + 1..]);
      OffOnSocket(s, HandlerEvents()[k], k);
      var t := s.(socket := Some(sock.(listeners := ls + hs[k + 1..])));
      assert SocketClient.AfterOff(s, HandlerEvents()[k], k) == t;
      UnregisterSuffix(t, k + 1, ls);
    }
  }

  /**
   * Clearing undoes initialising: removing the six handlers from a socket
   * that had them added, and none before, gives back the socket as it was.
   */
  lemma ClearUndoesRegistration(s: SocketClient.Service)
    requires s.socket.Some?
    requires forall k | 0 <= k < |HandlerEvents()| :: HandlerListener(k) !in s.socket.value.listeners
    ensures Unregistered(Registered(s, |HandlerEvents()|), 0) == s
  {
    var r := Registered(s, |HandlerEvents()|);
    assert HandlerListeners()[0..] == HandlerListeners()[..|HandlerEvents()|];
    UnregisterSuffix(r, 0, s.socket.value.listeners);
  }

  /** Clearing after initialising leaves the service as it was created: no socket, not connected. */
  lemma ClearAfterInitIsFresh(token: Option<string>, apiUrl: Option<string>)
    ensures AfterClearSocketConnection(AfterInitSocketConnection(SocketClient.Fresh(), token, apiUrl)) == SocketClient.Fresh()
  {
  }

  class ChatStore {
    var conversations: seq<ClientConversation>
    var activeConversation: Option<int>
    var messages: map<int, seq<ClientMessage>>
    var loadingConversations: bool
    var loadingMessages: bool
    var error: Option<string>
    var requests: seq<Request>

    constructor ()
      ensures conversations == [] && activeConversation.None? && messages == map[]
      ensures !loadingConversations && !loadingMessages && error.None? && requests == []
    {
      conversations := [];
      activeConversation := None;
      messages := map[];
      loadingConversations, loadingMessages := false, false;
      error := None;
      requests := [];
    }

    /** `sortedConversations`: a sorted copy, newest activity first; the stored list is left as it is. */
    function SortedConversations(): (r: seq<ClientConversation>)
      reads this
      ensures multiset(r) == multiset(conversations)
      ensures SortedDescBy(r, DisplayTime)
    {
      SortDescBy(conversations, DisplayTime)
    }

    /** `hasActiveConversation`. */
    function HasActiveConversation(): (r: bool)
      reads this
      ensures r <==> activeConversation.Some? && activeConversation.value != 0
    {
      IsActive(activeConversation)
    }

    method FetchConversations()
      modifies this
      ensures loadingConversations && requests == old(requests) + [GetConversationsRequest]
      ensures conversations == old(conversations) && activeConversation == old(activeConversation)
      ensures messages == old(messages) && loadingMessages == old(loadingMessages) && error == old(error)
    {
      loadingConversations := true;
      requests := requests + [GetConversationsRequest];
    }

    /** `setActiveConversation(id)`: leave the previous room if switching, then make `id` active. */
    method SetActiveConversation(conversationId: int)
      modifies this
      ensures activeConversation == Some(conversationId)
      ensures requests == old(requests) + LeaveBefore(old(activeConversation), conversationId)
      ensures conversations == old(conversations) && messages == old(messages)
      ensures loadingConversations == old(loadingConversations) && loadingMessages == old(loadingMessages) && error == old(error)
    {
      if IsActive(activeConversation) && activeConversation.value != conversationId {
        requests := requests + [LeaveRequest(activeConversation.value)];
      }
      activeConversation := Some(conversationId);
    }

    /** `fetchMessages(id, limit = 50, offset = 0)`: request the page, then make `id` active. */
    method FetchMessages(conversationId: int, limit: Option<int>, offset: Option<int>)
      modifies this
      ensures loadingMessages && activeConversation == Some(conversationId)
      ensures requests == old(requests) + [GetMessagesRequest(conversationId, limit.GetOr(DefaultLimit), offset.GetOr(DefaultOffset))]
                                        + LeaveBefore(old(activeConversation), conversationId)
      ensures conversations == old(conversations) && messages == old(messages)
      ensures loadingConversations == old(loadingConversations) && error == old(error)
    {
      loadingMessages := true;
      requests := requests + [GetMessagesRequest(conversationId, limit.GetOr(DefaultLimit), offset.GetOr(DefaultOffset))];
      SetActiveConversation(conversationId);
    }

    /** `sendMessage(content)`: nothing without an active conversation or with blank content; else one trimmed send. */
    method SendMessage(content: string)
      modifies this
      ensures !IsActive(old(activeConversation)) || IsBlank(content) ==> requests == old(requests)
      ensures IsActive(old(activeConversation)) && !IsBlank(content) ==>
                requests == old(requests) + [SendRequest(old(activeConversation).value, Trim(content))]
      ensures conversations == old(conversations) && activeConversation == old(activeConversation) && messages == old(messages)
      ensures loadingConversations == old(loadingConversations) && loadingMessages == old(loadingMessages) && error == old(error)
    {
      if !IsActive(activeConversation) || Trim(content) == [] {
        return;
      }
      requests := requests + [SendRequest(activeConversation.value, Trim(content))];
    }

    /** `createConversation(participantIds)`: only the request; the list changes when the server answers. */
    method CreateConversation(participantIds: seq<int>)
      modifies this
      ensures requests == old(requests) + [CreateRequest(participantIds)]
      ensures conversations == old(conversations) && activeConversation == old(activeConversation) && messages == old(messages)
      ensures loadingConversations == old(loadingConversations) && loadingMessages == old(loadingMessages) && error == old(error)
    {
      requests := requests + [CreateRequest(participantIds)];
    }

    /** `conversations_list`: replace the list. */
    method HandleConversationsList(cs: seq<ClientConversation>)
      modifies this
      ensures conversations == cs && !loadingConversations
      ensures activeConversation == old(activeConversation) && messages == old(messages)
      ensures loadingMessages == old(loadingMessages) && error == old(error) && requests == old(requests)
    {
      conversations := cs;
      loadingConversations := false;
    }

    /** `messages_list`: replace (not merge) that conversation's list. */
    method HandleMessagesList(conversationId: int, ms: seq<ClientMessage>)
      modifies this
      ensures messages == old(messages)[conversationId := ms] && !loadingMessages
      ensures conversations == old(conversations) && activeConversation == old(activeConversation)
      ensures loadingConversations == old(loadingConversations) && error == old(error) && requests == old(requests)
    {
      messages := messages[conversationId := ms];
      loadingMessages := false;
    }

    /**
     * `new_message`: append to the conversation's list (created if absent) and
     * copy content and time into the first listed conversation with that id.
     */
    method HandleNewMessage(conversationId: int, m: ClientMessage)
      modifies this
      ensures messages == AppendMessage(old(messages), conversationId, m)
      ensures conversations == WithLastMessage(old(conversations), conversationId, m)
      ensures activeConversation == old(activeConversation) && requests == old(requests)
      ensures loadingConversations == old(loadingConversations) && loadingMessages == old(loadingMessages) && error == old(error)
    {
      messages := AppendMessage(messages, conversationId, m);
      var cs := conversations;
      var k := FindIndex(cs, conversationId);
      if k.Some? {
        var c := cs[k.value];
        conversations := cs[k.value := c.(lastMessage := Some(m.content), lastMessageTime := Some(m.createdAt))];
      }
      assert conversations == WithLastMessage(cs, conversationId, m);
    }

    /** `conversation_created`: add it if new, make it active and fetch its messages with the default page. */
    method HandleConversationCreated(c: ClientConversation)
      modifies this
      ensures conversations == AddIfAbsent(old(conversations), c)
      ensures activeConversation == Some(c.id) && loadingMessages
      ensures requests == old(requests) + LeaveBefore(old(activeConversation), c.id) + [GetMessagesRequest(c.id, DefaultLimit, DefaultOffset)]
      ensures messages == old(messages) && loadingConversations == old(loadingConversations) && error == old(error)
    {
      conversations := AddIfAbsent(conversations, c);
      SetActiveConversation(c.id);
      FetchMessages(c.id, None, None);
    }

    /** `new_conversation`: add it if new; nothing else changes. */
    method HandleNewConversation(c: ClientConversation)
      modifies this
      ensures conversations == AddIfAbsent(old(conversations), c)
      ensures activeConversation == old(activeConversation) && messages == old(messages) && requests == old(requests)
      ensures loadingConversations == old(loadingConversations) && loadingMessages == old(loadingMessages) && error == old(error)
    {
      conversations := AddIfAbsent(conversations, c);
    }

    /** `error`: keep the message and stop both spinners. */
    method HandleError(message: string)
      modifies this
      ensures error == Some(message) && !loadingConversations && !loadingMessages
      ensures conversations == old(conversations) && activeConversation == old(activeConversation)
      ensures messages == old(messages) && requests == old(requests)
    {
      error := Some(message);
      loadingConversations, loadingMessages := false, false;
    }

    /** `initSocketConnection()`, on the service instance, with the session's token. */
    method InitSocketConnection(service: SocketClient.SocketService, token: Option<string>, apiUrl: Option<string>)
      modifies service
      ensures service.State() == AfterInitSocketConnection(old(service.State()), token, apiUrl)
    {
      service.Init(token, apiUrl);
      ghost var s0 := service.State();
      service.On("conversations_list", 0);
      assert service.State() == Registered(s0, 1);
      service.On("messages_list", 1);
      assert service.State() == Registered(s0, 2);
      service.On("new_message", 2);
      assert service.State() == Registered(s0, 3);
      service.On("conversation_created", 3);
      assert service.State() == Registered(s0, 4);
      service.On("new_conversation", 4);
      assert service.State() == Registered(s0, 5);
      service.On("error", 5);
      assert service.State() == Registered(s0, 6);
    }

    /** `clearSocketConnection()`: every handler removed, then the connection closed. */
    method ClearSocketConnection(service: SocketClient.SocketService)
      modifies service
      ensures service.State() == AfterClearSocketConnection(old(service.State()))
    {
      ghost var s0 := service.State();
      // The six `off` calls, each with its handler's event name as `HandlerEvents` lists it.
      var events := HandlerEvents();
      service.Off(events[0], 0);
      assert Unregistered(s0, 0) == Unregistered(service.State(), 1);
      ghost var s1 := service.State();
      service.Off(events[1], 1);
      assert Unregistered(s1, 1) == Unregistered(service.State(), 2);
      ghost var s2 := service.State();
      service.Off(events[2], 2);
      assert Unregistered(s2, 2) == Unregistered(service.State(), 3);
      ghost var s3 := service.State();
      service.Off(events[3], 3);
      assert Unregistered(s3, 3) == Unregistered(service.State(), 4);
      ghost var s4 := service.State();
      service.Off(events[4], 4);
      assert Unregistered(s4, 4) == Unregistered(service.State(), 5);
      ghost var s5 := service.State();
      service.Off(events[5], 5);
      assert Unregistered(s5, 5) == service.State();
      service.Disconnect();
    }
  }
}
