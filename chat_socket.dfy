/**
 * The Socket.IO chat server (`socket/chatSocket.js`): one `ChatServer` holds the
 * presence map, the room memberships and the events emitted so far (an outbox:
 * delivery is not modelled). Each handler runs to completion; the queries and
 * writes are those of `ChatQueries` on the shared database.
 */
module ChatSocket {
  import opened Wrappers
  import opened NodeDb
  import opened ChatQueries

  type SocketId = string

  /** `socket.user`: the `usuarios` row the handshake attached. */
  datatype SocketUser = SocketUser(id: int, nome: Option<string>, email: string)

  /** A connected socket and its user. */
  datatype Client = Client(socketId: SocketId, user: SocketUser)

  /** `socket.emit` / `io.to(socketId)` reach one socket; `io.to("conversation:<id>")` a room. */
  datatype Target = ToSocket(socketId: SocketId) | ToRoom(conversationId: int)

  datatype Event =
    | ConversationsList(conversations: seq<ConversationSummary>)
    | MessagesList(conversationId: int, messages: seq<MessageView>)
    | NewMessage(message: Message, senderId: int, senderNome: Option<string>)
    | ConversationCreated(details: Option<ConversationDetails>)
    | NewConversation(details: Option<ConversationDetails>)
    | Error(reason: string)

  datatype Emission = Emission(target: Target, event: Event)

  const AccessDenied := "Acesso negado a esta conversa"
  const ConversationsFailed := "Erro ao buscar conversas"
  const MessagesFailed := "Erro ao buscar mensagens"
  const SendFailed := "Erro ao enviar mensagem"
  const CreateFailed := "Erro ao criar conversa"

  /** `if (!participantIds.includes(id)) participantIds.push(id)`. */
  function WithCreator(ids: seq<int>, creator: int): (r: seq<int>)
    ensures creator in r
    ensures forall u :: u in r <==> u in ids || u == creator
    ensures creator in ids ==> r == ids
    ensures creator !in ids ==> r == ids + [creator]
  {
    if creator in ids then ids else ids + [creator]
  }

  /** Adding the creator twice adds it once. */
  lemma WithCreatorIdempotent(ids: seq<int>, creator: int)
    ensures WithCreator(WithCreator(ids, creator), creator) == WithCreator(ids, creator)
  {
  }

  /** The `new_conversation` events of the `forEach`: online participants other than the creator, in list order. */
  function Notifications(ids: seq<int>, creator: int, presence: map<int, SocketId>, details: Option<ConversationDetails>): seq<Emission>
  {
    if ids == [] then []
    else
      var front := Notifications(ids[..|ids| - 1], creator, presence, details);
      var u := ids[|ids| - 1];
      if u != creator && u in presence then front + [Emission(ToSocket(presence[u]), NewConversation(details))] else front
  }

  /** A notification goes to a socket exactly when it is the presence entry of a listed participant other than the creator. */
  lemma {:induction false} NotificationsReachOthersOnline(ids: seq<int>, creator: int, presence: map<int, SocketId>, details: Option<ConversationDetails>, e: Emission)
    ensures e in Notifications(ids, creator, presence, details) <==>
      e.event == NewConversation(details) &&
      exists u | u in ids :: u != creator && u in presence && e.target == ToSocket(presence[u])
  {
    if ids != [] {
      var front := ids[..|ids| - 1];
      NotificationsReachOthersOnline(front, creator, presence, details, e);
      assert ids == front + [ids[|ids| - 1]];
      assert forall u :: u in ids <==> u in front || u == ids[|ids| - 1];
    }
  }

  /** The presence map after a connection: the newest socket wins. */
  function Connected(presence: map<int, SocketId>, userId: int, socketId: SocketId): (r: map<int, SocketId>)
    ensures r.Keys == presence.Keys + {userId} && r[userId] == socketId
    ensures forall u | u in presence && u != userId :: r[u] == presence[u]
  {
    presence[userId := socketId]
  }

  /** The presence map after a disconnection: the user's entry goes, whichever socket it names. */
  function Disconnected(presence: map<int, SocketId>, userId: int): (r: map<int, SocketId>)
    ensures r.Keys == presence.Keys - {userId}
    ensures forall u | u in r :: r[u] == presence[u]
  {
    presence - {userId}
  }

  /**
   * Two tabs of one user: the first tab closing after the second opened leaves
   * the user absent from the map although the second socket is still connected.
   */
  lemma StaleDisconnectDropsNewerSocket(presence: map<int, SocketId>, userId: int, first: SocketId, second: SocketId)
    ensures userId !in Disconnected(Connected(Connected(presence, userId, first), userId, second), userId)
  {
  }

  class ChatServer {
    const db: Database
    var userSocketMap: map<int, SocketId>
    /** Room memberships `(socket, conversation id)`; the room of a conversation is `conversation:<id>`. */
    var rooms: set<(SocketId, int)>
    var outbox: seq<Emission>

    ghost predicate Valid()
      reads this, db
    {
      db.Valid()
    }

    constructor (db: Database)
      requires db.Valid()
      ensures Valid()
      ensures this.db == db && userSocketMap == map[] && rooms == {} && outbox == []
    {
      this.db := db;
      userSocketMap := map[];
      rooms := {};
      outbox := [];
    }

    /** `io.on('connection')`: bind the user to this socket, overwriting any earlier binding. */
    method Connect(client: Client)
      modifies this
      ensures userSocketMap == Connected(old(userSocketMap), client.user.id, client.socketId)
      ensures rooms == old(rooms) && outbox == old(outbox)
    {
      userSocketMap := userSocketMap[client.user.id := client.socketId];
    }

    /** `disconnect`: delete the user's binding, even one a newer socket made. */
    method Disconnect(client: Client)
      modifies this
      ensures userSocketMap == Disconnected(old(userSocketMap), client.user.id)
      ensures rooms == old(rooms) && outbox == old(outbox)
    {
      userSocketMap := userSocketMap - {client.user.id};
    }

    /** `get_conversations`: the caller's conversation list, to the caller only; `queryFails` is a query that throws. */
    method GetConversations(client: Client, queryFails: bool)
      modifies this
      ensures queryFails ==> outbox == old(outbox) + [Emission(ToSocket(client.socketId), Error(ConversationsFailed))]
      ensures !queryFails ==> outbox == old(outbox) + [Emission(ToSocket(client.socketId),
        ConversationsList(GetUserConversations(db.conversations, db.participants, db.usuarios, db.messages, client.user.id)))]
      ensures userSocketMap == old(userSocketMap) && rooms == old(rooms)
    {
      if queryFails {
        outbox := outbox + [Emission(ToSocket(client.socketId), Error(ConversationsFailed))];
        return;
      }
      var list := GetUserConversations(db.conversations, db.participants, db.usuarios, db.messages, client.user.id);
      outbox := outbox + [Emission(ToSocket(client.socketId), ConversationsList(list))];
    }

    /**
     * `get_messages`: `limit` and `offset` default to 50 and 0 when the payload
     * omits them. A non-member gets an error and joins nothing; a member gets the
     * page and only then joins the conversation's room. `checkFails` is the
     * participant check throwing (for a member, a throwing page query ends the
     * same way): the caller gets the error and joins nothing.
     */
    method GetMessages(client: Client, conversationId: int, limit: Option<int>, offset: Option<int>, checkFails: bool)
      modifies this
      ensures userSocketMap == old(userSocketMap)
      ensures checkFails ==> outbox == old(outbox) + [Emission(ToSocket(client.socketId), Error(MessagesFailed))] && rooms == old(rooms)
      ensures !checkFails && !IsConversationParticipant(db.participants, client.user.id, conversationId) ==>
        outbox == old(outbox) + [Emission(ToSocket(client.socketId), Error(AccessDenied))] && rooms == old(rooms)
      ensures !checkFails && IsConversationParticipant(db.participants, client.user.id, conversationId) ==>
        var page := GetConversationMessages(db.messages, db.usuarios, conversationId, limit.GetOr(DefaultLimit), offset.GetOr(DefaultOffset));
        (page.Failure? ==> outbox == old(outbox) + [Emission(ToSocket(client.socketId), Error(MessagesFailed))] && rooms == old(rooms)) &&
        (page.Success? ==> outbox == old(outbox) + [Emission(ToSocket(client.socketId), MessagesList(conversationId, page.value))] &&
                           rooms == old(rooms) + {(client.socketId, conversationId)})
    {
      if checkFails {
        outbox := outbox + [Emission(ToSocket(client.socketId), Error(MessagesFailed))];
        return;
      }
      if !IsConversationParticipant(db.participants, client.user.id, conversationId) {
        outbox := outbox + [Emission(ToSocket(client.socketId), Error(AccessDenied))];
        return;
      }
      var page := GetConversationMessages(db.messages, db.usuarios, conversationId, limit.GetOr(DefaultLimit), offset.GetOr(DefaultOffset));
      if page.Failure? {
        outbox := outbox + [Emission(ToSocket(client.socketId), Error(MessagesFailed))];
        return;
      }
      outbox := outbox + [Emission(ToSocket(client.socketId), MessagesList(conversationId, page.value))];
      rooms := rooms + {(client.socketId, conversationId)};
    }

    /**
     * `send_message`: a non-member gets an error and nothing is saved; a member's
     * message is saved first and the saved row, with the sender's id and name, is
     * broadcast to the room. `checkFails` is the participant check throwing,
     * `storeFails` a rejected INSERT.
     */
    method SendMessage(client: Client, conversationId: int, content: string, now: Time, checkFails: bool, storeFails: bool)
      requires Valid()
      modifies this, db
      ensures Valid()
      ensures userSocketMap == old(userSocketMap) && rooms == old(rooms)
      ensures db.usuarios == old(db.usuarios) && db.conversations == old(db.conversations) && db.participants == old(db.participants)
      ensures db.perfis == old(db.perfis) && db.publicacoes == old(db.publicacoes)
      ensures db.nextUsuarioId == old(db.nextUsuarioId) && db.nextPerfilId == old(db.nextPerfilId)
      ensures db.nextPublicacaoId == old(db.nextPublicacaoId) && db.nextConversationId == old(db.nextConversationId)
      ensures db.nextMessageId == old(db.nextMessageId) +
                if !checkFails && old(IsConversationParticipant(db.participants, client.user.id, conversationId)) && !storeFails
                then 1 else 0
      ensures checkFails ==>
        outbox == old(outbox) + [Emission(ToSocket(client.socketId), Error(SendFailed))] && db.messages == old(db.messages)
      ensures !checkFails && !old(IsConversationParticipant(db.participants, client.user.id, conversationId)) ==>
        outbox == old(outbox) + [Emission(ToSocket(client.socketId), Error(AccessDenied))] && db.messages == old(db.messages)
      ensures !checkFails && old(IsConversationParticipant(db.participants, client.user.id, conversationId)) && storeFails ==>
        outbox == old(outbox) + [Emission(ToSocket(client.socketId), Error(SendFailed))] && db.messages == old(db.messages)
      ensures !checkFails && old(IsConversationParticipant(db.participants, client.user.id, conversationId)) && !storeFails ==>
        var m := Message(old(db.nextMessageId), conversationId, client.user.id, content, now);
        db.messages == old(db.messages) + [m] &&
        outbox == old(outbox) + [Emission(ToRoom(conversationId), NewMessage(m, client.user.id, client.user.nome))]
      ensures forall k | |old(outbox)| <= k < |outbox| :: outbox[k].event.NewMessage? ==> outbox[k].event.message in db.messages
    {
      if checkFails {
        outbox := outbox + [Emission(ToSocket(client.socketId), Error(SendFailed))];
        return;
      }
      if !IsConversationParticipant(db.participants, client.user.id, conversationId) {
        outbox := outbox + [Emission(ToSocket(client.socketId), Error(AccessDenied))];
        return;
      }
      var saved := ChatQueries.SaveMessage(db, conversationId, client.user.id, content, now, storeFails);
      if saved.None? {
        outbox := outbox + [Emission(ToSocket(client.socketId), Error(SendFailed))];
        return;
      }
      outbox := outbox + [Emission(ToRoom(conversationId), NewMessage(saved.value, client.user.id, client.user.nome))];
    }

    /**
     * `create_conversation`: the creator is added to the list; a two-person list
     * reuses a conversation both already share; otherwise a new one is created
     * (`fault` as in `ChatQueries.CreateConversation`). The creator receives
     * `conversation_created`, then every other listed user with a presence entry
     * receives `new_conversation`. `findFails` is the lookup of a shared
     * conversation throwing, `detailsFail` the details query throwing after the
     * conversation is chosen (and, when new, committed): each ends with the
     * error to the creator alone, and nobody is notified.
     */
    method CreateConversation(client: Client, participantIds: seq<int>, now: Time, findFails: bool, fault: Option<nat>, detailsFail: bool)
      requires Valid()
      modifies this, db
      ensures Valid()
      ensures userSocketMap == old(userSocketMap) && rooms == old(rooms)
      ensures db.messages == old(db.messages) && db.usuarios == old(db.usuarios)
      ensures db.perfis == old(db.perfis) && db.publicacoes == old(db.publicacoes)
      ensures db.nextUsuarioId == old(db.nextUsuarioId) && db.nextPerfilId == old(db.nextPerfilId)
      ensures db.nextPublicacaoId == old(db.nextPublicacaoId) && db.nextMessageId == old(db.nextMessageId)
      ensures var ids := WithCreator(participantIds, client.user.id);
        var existing := if |ids| == 2 && !findFails then FindExistingConversation(old(db.participants), ids) else None;
        db.nextConversationId == old(db.nextConversationId) +
          if (|ids| == 2 && findFails) || (existing.Some? && existing.value != 0) then 0 else 1
      ensures var ids := WithCreator(participantIds, client.user.id);
        |ids| == 2 && findFails ==>
          db.conversations == old(db.conversations) && db.participants == old(db.participants) &&
          outbox == old(outbox) + [Emission(ToSocket(client.socketId), Error(CreateFailed))]
      ensures var ids := WithCreator(participantIds, client.user.id);
        var existing := if |ids| == 2 then FindExistingConversation(old(db.participants), ids) else None;
        var reused := existing.Some? && existing.value != 0;
        !(|ids| == 2 && findFails) ==>
        (reused ==>
           db.conversations == old(db.conversations) && db.participants == old(db.participants) &&
           (detailsFail ==> outbox == old(outbox) + [Emission(ToSocket(client.socketId), Error(CreateFailed))]) &&
           (!detailsFail ==>
              var d := GetConversationDetails(db.conversations, db.participants, db.usuarios, existing.value);
              outbox == old(outbox) + [Emission(ToSocket(client.socketId), ConversationCreated(d))]
                                    + Notifications(ids, client.user.id, userSocketMap, d))) &&
        (!reused && fault.Some? && fault.value <= |ids| ==>
           db.conversations == old(db.conversations) && db.participants == old(db.participants) &&
           outbox == old(outbox) + [Emission(ToSocket(client.socketId), Error(CreateFailed))]) &&
        (!reused && (fault.None? || fault.value > |ids|) ==>
           var c := Conversation(old(db.nextConversationId), now);
           db.conversations == old(db.conversations) + [c] &&
           db.participants == old(db.participants) + Memberships(c.id, ids) &&
           (detailsFail ==> outbox == old(outbox) + [Emission(ToSocket(client.socketId), Error(CreateFailed))]) &&
           (!detailsFail ==>
              var d := GetConversationDetails(db.conversations, db.participants, db.usuarios, c.id);
              outbox == old(outbox) + [Emission(ToSocket(client.socketId), ConversationCreated(d))]
                                    + Notifications(ids, client.user.id, userSocketMap, d)))
    {
      var ids := WithCreator(participantIds, client.user.id);
      var conversationId: Option<int> := None;
      if |ids| == 2 {
        if findFails {
          outbox := outbox + [Emission(ToSocket(client.socketId), Error(CreateFailed))];
          return;
        }
        conversationId := FindExistingConversation(db.participants, ids);
      }
      if conversationId.None? || conversationId.value == 0 {
        var created := ChatQueries.CreateConversation(db, ids, now, fault);
        if created.None? {
          outbox := outbox + [Emission(ToSocket(client.socketId), Error(CreateFailed))];
          return;
        }
        conversationId := Some(created.value.id);
      }
      if detailsFail {
        outbox := outbox + [Emission(ToSocket(client.socketId), Error(CreateFailed))];
        return;
      }
      var details := GetConversationDetails(db.conversations, db.participants, db.usuarios, conversationId.value);
      Announce(client, ids, details);
    }

    /** The creator's `conversation_created`, then the `forEach` over the list notifying online participants. */
    method Announce(client: Client, ids: seq<int>, details: Option<ConversationDetails>)
      modifies this
      ensures outbox == old(outbox) + [Emission(ToSocket(client.socketId), ConversationCreated(details))]
                                    + Notifications(ids, client.user.id, userSocketMap, details)
      ensures userSocketMap == old(userSocketMap) && rooms == old(rooms)
    {
      outbox := outbox + [Emission(ToSocket(client.socketId), ConversationCreated(details))];
      var base := outbox;
      var i := 0;
      while i < |ids|
        invariant 0 <= i <= |ids|
        invariant userSocketMap == old(userSocketMap) && rooms == old(rooms)
        invariant outbox == base + Notifications(ids[..i], client.user.id, userSocketMap, details)
      {
        assert ids[..i + 1][..i] == ids[..i];
        var u := ids[i];
        if u != client.user.id && u in userSocketMap {
          outbox := outbox + [Emission(ToSocket(userSocketMap[u]), NewConversation(details))];
        }
        i := i + 1;
      }
      assert ids[..i] == ids;
    }

    /** `leave_conversation`: the socket leaves that conversation's room. */
    method LeaveConversation(client: Client, conversationId: int)
      modifies this
      ensures rooms == old(rooms) - {(client.socketId, conversationId)}
      ensures userSocketMap == old(userSocketMap) && outbox == old(outbox)
    {
      rooms := rooms - {(client.socketId, conversationId)};
    }
  }
}
