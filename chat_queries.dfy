/**
 * The chat queries of the Node back end (`controllers/chat/chatController.js`):
 * reads are functions over the tables, the two writes are methods on the
 * database. SQL row order that the query leaves open is taken as storage order.
 */
module ChatQueries {
  import opened Wrappers
  import opened Seqs
  import opened NodeDb

  /** `json_build_object('id', u.id, 'nome', …, 'email', u.email)`, with the user's chat name. */
  datatype ParticipantInfo = ParticipantInfo(id: int, nome: Option<string>, email: string)

  /** A row of `getUserConversations`; `participants` is `None` where `json_agg` met no row. */
  datatype ConversationSummary = ConversationSummary(
    id: int, createdAt: Time, participants: Option<seq<ParticipantInfo>>,
    lastMessage: Option<string>, lastMessageTime: Option<Time>)

  /** A row of `getConversationMessages`: the message joined with its sender. */
  datatype MessageView = MessageView(id: int, content: string, createdAt: Time, senderId: int, senderNome: Option<string>)

  /** The row of `getConversationDetails`. */
  datatype ConversationDetails = ConversationDetails(id: int, createdAt: Time, participants: Option<seq<ParticipantInfo>>)

  /** A query the store refuses (a negative `LIMIT` or `OFFSET`). */
  datatype StoreError = StoreError

  const DefaultLimit: nat := 50
  const DefaultOffset: nat := 0

  // ---------------------------------------------------------------------------
  // isConversationParticipant
  // ---------------------------------------------------------------------------

  /** `SELECT 1 FROM conversation_participants WHERE user_id = $1 AND conversation_id = $2`, `rowCount > 0`. */
  function IsConversationParticipant(parts: seq<Participant>, userId: int, conversationId: int): (r: bool)
    ensures r <==> Participant(conversationId, userId) in parts
  {
    if parts == [] then false
    else parts[0] == Participant(conversationId, userId) || IsConversationParticipant(parts[1..], userId, conversationId)
  }

  // ---------------------------------------------------------------------------
  // Participants lists (json_agg over conversation_participants JOIN usuarios)
  // ---------------------------------------------------------------------------

  function Info(u: Usuario): ParticipantInfo {
    ParticipantInfo(u.id, ChatName(u), u.email)
  }

  /** The members of `conversationId` that have a user row, other than `exclude`, in membership order. */
  function MemberInfos(parts: seq<Participant>, users: seq<Usuario>, conversationId: int, exclude: Option<int>): (r: seq<ParticipantInfo>)
    ensures forall i | 0 <= i < |r| :: exclude.Some? ==> r[i].id != exclude.value
    ensures forall i | 0 <= i < |r| :: Participant(conversationId, r[i].id) in parts
    ensures forall i | 0 <= i < |r| :: exists u | u in users :: u.id == r[i].id && Info(u) == r[i]
    ensures forall u | u in users && Participant(conversationId, u.id) in parts && (exclude.None? || u.id != exclude.value) ::
              FindUsuario(users, u.id).Some? && Info(FindUsuario(users, u.id).value) in r
  {
    if parts == [] then []
    else
      var p := parts[0];
      var rest := MemberInfos(parts[1..], users, conversationId, exclude);
      var here := p.conversationId == conversationId && (exclude.None? || p.userId != exclude.value)
                  && FindUsuario(users, p.userId).Some?;
      if here then [Info(FindUsuario(users, p.userId).value)] + rest else rest
  }

  /** `json_agg(...)`: the list, or SQL NULL when no row was aggregated. */
  function Aggregate(infos: seq<ParticipantInfo>): (r: Option<seq<ParticipantInfo>>)
    ensures r.None? <==> infos == []
    ensures r.Some? ==> r.value == infos
  {
    if infos == [] then None else Some(infos)
  }

  // ---------------------------------------------------------------------------
  // Latest message of a conversation (ORDER BY created_at DESC LIMIT 1)
  // ---------------------------------------------------------------------------

  /** The message of `ms` with the latest `createdAt` (the first such one on a tie). */
  function Latest(ms: seq<Message>): (r: Option<Message>)
    ensures r.None? <==> ms == []
    ensures r.Some? ==> r.value in ms && forall m | m in ms :: m.createdAt <= r.value.createdAt
  {
    if ms == [] then None
    else
      var rest := Latest(ms[1..]);
      if rest.None? || rest.value.createdAt <= ms[0].createdAt then Some(ms[0]) else rest
  }

  function MessagesOf(msgs: seq<Message>, conversationId: int): (r: seq<Message>)
    ensures forall m | m in r :: m in msgs && m.conversationId == conversationId
    ensures forall m | m in msgs && m.conversationId == conversationId :: m in r
  {
    Filter(msgs, (m: Message) => m.conversationId == conversationId)
  }

  // ---------------------------------------------------------------------------
  // getUserConversations
  // ---------------------------------------------------------------------------

  function Summary(c: Conversation, parts: seq<Participant>, users: seq<Usuario>, msgs: seq<Message>, userId: int): ConversationSummary {
    var last := Latest(MessagesOf(msgs, c.id));
    ConversationSummary(
      c.id, c.createdAt,
      Aggregate(MemberInfos(parts, users, c.id, Some(userId))),
      if last.Some? then Some(last.value.content) else None,
      if last.Some? then Some(last.value.createdAt) else None)
  }

  /** Whether the membership's conversation row exists, the condition of the inner join. */
  function HasConversation(convs: seq<Conversation>): Participant -> bool {
    (p: Participant) => FindConversation(convs, p.conversationId).Some?
  }

  /**
   * `conversations c JOIN conversation_participants cp ... WHERE cp.user_id = $1`:
   * one row per membership row in `mine` whose conversation exists.
   */
  function JoinRows(convs: seq<Conversation>, mine: seq<Participant>, parts: seq<Participant>, users: seq<Usuario>, msgs: seq<Message>, userId: int): (r: seq<ConversationSummary>)
    ensures forall x | x in r :: exists p | p in mine :: p.conversationId == x.id
    ensures forall p | p in mine && FindConversation(convs, p.conversationId).Some? ::
              Summary(FindConversation(convs, p.conversationId).value, parts, users, msgs, userId) in r
    ensures forall x | x in r :: FindConversation(convs, x.id).Some? &&
              x == Summary(FindConversation(convs, x.id).value, parts, users, msgs, userId)
    ensures |r| == Count(mine, HasConversation(convs))
  {
    if mine == [] then []
    else
      var c := FindConversation(convs, mine[0].conversationId);
      assert HasConversation(convs)(mine[0]) == c.Some?;
      var rest := JoinRows(convs, mine[1..], parts, users, msgs, userId);
      if c.Some? then [Summary(c.value, parts, users, msgs, userId)] + rest else rest
  }

  /** `ORDER BY last_message_time DESC NULLS LAST`: a conversation without messages ranks below every time. */
  function LastMessageRank(s: ConversationSummary): int {
    if s.lastMessageTime.Some? then s.lastMessageTime.value else -1
  }

  /** `getUserConversations(userId)`. */
  function GetUserConversations(convs: seq<Conversation>, parts: seq<Participant>, users: seq<Usuario>, msgs: seq<Message>, userId: int): (r: seq<ConversationSummary>)
    ensures SortedDescBy(r, LastMessageRank)
  {
    var mine := Filter(parts, (p: Participant) => p.userId == userId);
    SortDescBy(JoinRows(convs, mine, parts, users, msgs, userId), LastMessageRank)
  }

  /** A conversation is listed exactly when the user has a membership row in it and the conversation exists. */
  lemma UserConversationsAreTheirs(convs: seq<Conversation>, parts: seq<Participant>, users: seq<Usuario>, msgs: seq<Message>, userId: int, cid: int)
    ensures (exists x | x in GetUserConversations(convs, parts, users, msgs, userId) :: x.id == cid)
        <==> Participant(cid, userId) in parts && FindConversation(convs, cid).Some?
  {
    var mine := Filter(parts, (p: Participant) => p.userId == userId);
    var rows := JoinRows(convs, mine, parts, users, msgs, userId);
    var r := GetUserConversations(convs, parts, users, msgs, userId);
    SameMembers(r, rows);
    if Participant(cid, userId) in parts && FindConversation(convs, cid).Some? {
      var p := Participant(cid, userId);
      assert p in mine;
      var x := Summary(FindConversation(convs, cid).value, parts, users, msgs, userId);
      assert x in rows;
      assert x in r && x.id == cid;
    }
    if exists x | x in r :: x.id == cid {
      var x :| x in r && x.id == cid;
      assert x in rows;
      var p :| p in mine && p.conversationId == x.id;
      assert p in parts && p.userId == userId;
      assert p == Participant(cid, userId);
    }
  }

  /** Each listed row names the other participants only, and carries that conversation's latest message. */
  lemma UserConversationRowContents(convs: seq<Conversation>, parts: seq<Participant>, users: seq<Usuario>, msgs: seq<Message>, userId: int, x: ConversationSummary)
    requires x in GetUserConversations(convs, parts, users, msgs, userId)
    ensures x.participants.Some? ==> forall i | 0 <= i < |x.participants.value| :: x.participants.value[i].id != userId
    ensures x.lastMessage.Some? <==> exists m | m in msgs :: m.conversationId == x.id
    ensures x.lastMessageTime.Some? ==> forall m | m in msgs && m.conversationId == x.id :: m.createdAt <= x.lastMessageTime.value
    ensures x.lastMessageTime.Some? ==> exists m | m in msgs && m.conversationId == x.id ::
              m.createdAt == x.lastMessageTime.value && m.content == x.lastMessage.value
  {
    var mine := Filter(parts, (p: Participant) => p.userId == userId);
    var rows := JoinRows(convs, mine, parts, users, msgs, userId);
    SameMembers(GetUserConversations(convs, parts, users, msgs, userId), rows);
    assert x in rows;
    var own := MessagesOf(msgs, x.id);
    if exists m | m in msgs :: m.conversationId == x.id {
      var m :| m in msgs && m.conversationId == x.id;
      assert m in own;
    }
  }

  /** Conversations without messages come after every conversation with one. */
  lemma MessageLessConversationsLast(convs: seq<Conversation>, parts: seq<Participant>, users: seq<Usuario>, msgs: seq<Message>, userId: int, i: int, j: int)
    requires var r := GetUserConversations(convs, parts, users, msgs, userId);
      0 <= i < j < |r| && r[i].lastMessageTime.None?
    ensures GetUserConversations(convs, parts, users, msgs, userId)[j].lastMessageTime.None?
  {
    var r := GetUserConversations(convs, parts, users, msgs, userId);
    assert LastMessageRank(r[i]) >= LastMessageRank(r[j]);
  }

  // ---------------------------------------------------------------------------
  // getConversationMessages
  // ---------------------------------------------------------------------------

  /** `messages m JOIN usuarios u ON m.sender_id = u.id WHERE m.conversation_id = $1`, before ordering. */
  function MessageViews(ms: seq<Message>, users: seq<Usuario>, conversationId: int): (r: seq<MessageView>)
    ensures forall v | v in r :: (exists m | m in ms ::
              m.conversationId == conversationId && m.id == v.id &&
              m.content == v.content && m.createdAt == v.createdAt && m.senderId == v.senderId)
    ensures forall m | m in ms && m.conversationId == conversationId && FindUsuario(users, m.senderId).Some? ::
              MessageView(m.id, m.content, m.createdAt, m.senderId, ChatName(FindUsuario(users, m.senderId).value)) in r
  {
    if ms == [] then []
    else
      var m := ms[0];
      var sender := FindUsuario(users, m.senderId);
      var rest := MessageViews(ms[1..], users, conversationId);
      if m.conversationId == conversationId && sender.Some? then
        [MessageView(m.id, m.content, m.createdAt, m.senderId, ChatName(sender.value))] + rest
      else rest
  }

  function ViewTime(v: MessageView): int {
    v.createdAt
  }

  /** `getConversationMessages(conversationId, limit, offset)`: newest first, `offset` skipped, at most `limit` rows. */
  function GetConversationMessages(ms: seq<Message>, users: seq<Usuario>, conversationId: int, limit: int, offset: int): (r: Result<seq<MessageView>, StoreError>)
    ensures r.Failure? <==> limit < 0 || offset < 0
    ensures r.Success? ==> |r.value| <= limit && SortedDescBy(r.value, ViewTime)
    ensures r.Success? ==> var n := |MessageViews(ms, users, conversationId)|;
      |r.value| == (if offset >= n then 0 else if n - offset < limit then n - offset else limit)
    ensures r.Success? ==> r.value == Page(SortDescBy(MessageViews(ms, users, conversationId), ViewTime), limit, offset)
  {
    if limit < 0 || offset < 0 then Failure(StoreError)
    else
      var page := Page(SortDescBy(MessageViews(ms, users, conversationId), ViewTime), limit, offset);
      assert SortedDescBy(page, ViewTime) by {
        var all := SortDescBy(MessageViews(ms, users, conversationId), ViewTime);
        forall i, j | 0 <= i < j < |page| ensures ViewTime(page[i]) >= ViewTime(page[j]) {
          assert page[i] == all[offset + i] && page[j] == all[offset + j];
        }
      }
      Success(page)
  }

  /** Every returned row is a message of that conversation. */
  lemma ConversationMessagesBelong(ms: seq<Message>, users: seq<Usuario>, conversationId: int, limit: int, offset: int, v: MessageView)
    requires GetConversationMessages(ms, users, conversationId, limit, offset).Success?
    requires v in GetConversationMessages(ms, users, conversationId, limit, offset).value
    ensures exists m | m in ms :: m.conversationId == conversationId && m.id == v.id && m.content == v.content
  {
    var all := SortDescBy(MessageViews(ms, users, conversationId), ViewTime);
    var page := Page(all, limit, offset);
    var k :| 0 <= k < |page| && page[k] == v;
    assert v in all;
    SameMembers(all, MessageViews(ms, users, conversationId));
  }

  /** Paging on: the page after a page of `a` rows continues it exactly, with no row skipped or repeated. */
  lemma NextPageContinues(ms: seq<Message>, users: seq<Usuario>, conversationId: int, a: nat, b: nat, offset: nat)
    ensures GetConversationMessages(ms, users, conversationId, a, offset).value +
            GetConversationMessages(ms, users, conversationId, b, offset + a).value ==
            GetConversationMessages(ms, users, conversationId, a + b, offset).value
  {
    PagesJoin(SortDescBy(MessageViews(ms, users, conversationId), ViewTime), a, b, offset);
  }

  /** With the default page and few enough messages, every message of the conversation (with a sender row) is returned. */
  lemma DefaultPageIsComplete(ms: seq<Message>, users: seq<Usuario>, conversationId: int, m: Message)
    requires |MessageViews(ms, users, conversationId)| <= DefaultLimit
    requires m in ms && m.conversationId == conversationId && FindUsuario(users, m.senderId).Some?
    ensures GetConversationMessages(ms, users, conversationId, DefaultLimit, DefaultOffset).Success?
    ensures exists v | v in GetConversationMessages(ms, users, conversationId, DefaultLimit, DefaultOffset).value :: v.id == m.id
  {
    var views := MessageViews(ms, users, conversationId);
    var all := SortDescBy(views, ViewTime);
    var v := MessageView(m.id, m.content, m.createdAt, m.senderId, ChatName(FindUsuario(users, m.senderId).value));
    assert v in views;
    SameMembers(all, views);
    var page := Page(all, DefaultLimit, DefaultOffset);
    assert page == all;
    assert v in page;
  }

  // ---------------------------------------------------------------------------
  // findExistingConversation
  // ---------------------------------------------------------------------------

  /** The first conversation, in membership order, in which `a` and `b` both have a row. */
  function CommonConversation(scan: seq<Participant>, parts: seq<Participant>, a: int, b: int): (r: Option<int>)
    ensures r.Some? ==> Participant(r.value, a) in parts || Participant(r.value, a) in scan
    ensures r.Some? ==> Participant(r.value, b) in parts
    ensures r.None? <==> forall p | p in scan :: !(p.userId == a && Participant(p.conversationId, b) in parts)
  {
    if scan == [] then None
    else if scan[0].userId == a && IsConversationParticipant(parts, b, scan[0].conversationId) then Some(scan[0].conversationId)
    else CommonConversation(scan[1..], parts, a, b)
  }

  /**
   * `findExistingConversation(participantIds)`: only a list of exactly two ids is
   * looked up; the `HAVING` clause holds of every group, so any conversation that
   * contains both users qualifies, a group conversation included.
   */
  function FindExistingConversation(parts: seq<Participant>, participantIds: seq<int>): (r: Option<int>)
    ensures |participantIds| != 2 ==> r.None?
    ensures r.Some? ==> Participant(r.value, participantIds[0]) in parts && Participant(r.value, participantIds[1]) in parts
    ensures |participantIds| == 2 && r.None? ==>
              forall c :: !(Participant(c, participantIds[0]) in parts && Participant(c, participantIds[1]) in parts)
  {
    if |participantIds| != 2 then None
    else CommonConversation(parts, parts, participantIds[0], participantIds[1])
  }

  /** A three-member conversation is returned for a two-id lookup: the de-duplication is not exact. */
  lemma GroupConversationFoundForPair()
    ensures FindExistingConversation([Participant(7, 1), Participant(7, 2), Participant(7, 3)], [1, 2]) == Some(7)
  {
    var parts := [Participant(7, 1), Participant(7, 2), Participant(7, 3)];
    assert IsConversationParticipant(parts, 2, 7);
  }

  // ---------------------------------------------------------------------------
  // getConversationDetails
  // ---------------------------------------------------------------------------

  /** `getConversationDetails(conversationId)`: `rows[0]`, undefined (`None`) for an unknown id. */
  function GetConversationDetails(convs: seq<Conversation>, parts: seq<Participant>, users: seq<Usuario>, conversationId: int): (r: Option<ConversationDetails>)
    ensures r.None? <==> FindConversation(convs, conversationId).None?
    ensures r.Some? ==> r.value.id == conversationId
  {
    var c := FindConversation(convs, conversationId);
    if c.None? then None
    else Some(ConversationDetails(c.value.id, c.value.createdAt, Aggregate(MemberInfos(parts, users, conversationId, None))))
  }

  /** The details list every member with a user row, the caller included. */
  lemma DetailsListEveryMember(convs: seq<Conversation>, parts: seq<Participant>, users: seq<Usuario>, conversationId: int, u: Usuario)
    requires FindConversation(convs, conversationId).Some?
    requires u in users && Participant(conversationId, u.id) in parts
    ensures var d := GetConversationDetails(convs, parts, users, conversationId);
      d.Some? && d.value.participants.Some? && Info(FindUsuario(users, u.id).value) in d.value.participants.value
  {
  }

  // ---------------------------------------------------------------------------
  // Writes: createConversation and saveMessage
  // ---------------------------------------------------------------------------

  /** The membership rows `createConversation` inserts, one per listed id, in list order. */
  function Memberships(conversationId: int, ids: seq<int>): (r: seq<Participant>)
    ensures |r| == |ids|
    ensures forall k | 0 <= k < |ids| :: r[k] == Participant(conversationId, ids[k])
  {
    if ids == [] then [] else Memberships(conversationId, ids[..|ids| - 1]) + [Participant(conversationId, ids[|ids| - 1])]
  }

  /**
   * `createConversation(participantIds)`, inside BEGIN/COMMIT/ROLLBACK. `fault`
   * names the statement the store rejects, if any: 0 is the conversation INSERT,
   * `k` the membership INSERT of `participantIds[k - 1]`. The id sequence is not
   * transactional, so its value is drawn even when the transaction rolls back.
   */
  method CreateConversation(db: Database, participantIds: seq<int>, now: Time, fault: Option<nat>) returns (r: Option<Conversation>)
    requires db.Valid()
    modifies db
    ensures db.Valid()
    ensures r.Some? <==> (fault.None? || fault.value > |participantIds|)
    ensures db.nextConversationId == old(db.nextConversationId) + 1
    ensures r.Some? ==> r.value == Conversation(old(db.nextConversationId), now)
    ensures r.Some? ==> db.conversations == old(db.conversations) + [r.value]
    ensures r.Some? ==> db.participants == old(db.participants) + Memberships(r.value.id, participantIds)
    ensures r.None? ==> db.conversations == old(db.conversations) && db.participants == old(db.participants)
    ensures db.usuarios == old(db.usuarios) && db.perfis == old(db.perfis) && db.publicacoes == old(db.publicacoes)
    ensures db.messages == old(db.messages)
    ensures db.nextUsuarioId == old(db.nextUsuarioId) && db.nextPerfilId == old(db.nextPerfilId)
    ensures db.nextPublicacaoId == old(db.nextPublicacaoId) && db.nextMessageId == old(db.nextMessageId)
  {
    var id := db.nextConversationId;
    db.nextConversationId := id + 1;
    if fault == Some(0) {
      return None;
    }
    var pending: seq<Participant> := [];
    var i := 0;
    while i < |participantIds|
      invariant 0 <= i <= |participantIds|
      invariant pending == Memberships(id, participantIds[..i])
      invariant fault.Some? ==> fault.value == 0 || fault.value > i
    {
      if fault == Some(i + 1) {
        return None;
      }
      assert participantIds[..i + 1][..i] == participantIds[..i];
      pending := pending + [Participant(id, participantIds[i])];
      i := i + 1;
    }
    assert participantIds[..i] == participantIds;
    db.conversations := db.conversations + [Conversation(id, now)];
    db.participants := db.participants + pending;
    r := Some(Conversation(id, now));
  }

  /** After a committed creation every listed id is a participant of the new conversation. */
  lemma CreatedConversationMembers(before: seq<Participant>, conversationId: int, ids: seq<int>, u: int)
    requires u in ids
    ensures IsConversationParticipant(before + Memberships(conversationId, ids), u, conversationId)
  {
    var k :| 0 <= k < |ids| && ids[k] == u;
    assert (before + Memberships(conversationId, ids))[|before| + k] == Participant(conversationId, u);
  }

  /** `saveMessage(conversationId, senderId, content)`: one new row, `RETURNING` it. `fails` is a store error. */
  method SaveMessage(db: Database, conversationId: int, senderId: int, content: string, now: Time, fails: bool) returns (r: Option<Message>)
    requires db.Valid()
    modifies db
    ensures db.Valid()
    ensures r.Some? <==> !fails
    ensures r.Some? ==> r.value == Message(old(db.nextMessageId), conversationId, senderId, content, now)
    ensures r.Some? ==> db.messages == old(db.messages) + [r.value] && db.nextMessageId == old(db.nextMessageId) + 1
    ensures r.None? ==> db.messages == old(db.messages) && db.nextMessageId == old(db.nextMessageId)
    ensures db.usuarios == old(db.usuarios) && db.perfis == old(db.perfis) && db.publicacoes == old(db.publicacoes)
    ensures db.conversations == old(db.conversations) && db.participants == old(db.participants)
    ensures db.nextUsuarioId == old(db.nextUsuarioId) && db.nextPerfilId == old(db.nextPerfilId)
    ensures db.nextPublicacaoId == old(db.nextPublicacaoId) && db.nextConversationId == old(db.nextConversationId)
  {
    if fails {
      return None;
    }
    var m := Message(db.nextMessageId, conversationId, senderId, content, now);
    db.messages := db.messages + [m];
    db.nextMessageId := db.nextMessageId + 1;
    r := Some(m);
  }

  /** The saved row is new: no earlier message has its id. */
  lemma SavedMessageIsFresh(db: Database, m: Message)
    requires db.Valid() && m.id == db.nextMessageId
    ensures m !in db.messages
  {
  }
}
