/**
 * `Controllers/ChatController.cs`: the chat history of the caller, with one
 * contact or with everybody, and the caller's conversation summaries grouped by
 * counterpart. All three are LINQ queries over `ChatMessages`, so they are
 * functions of the table and of the caller's id.
 */
module ApiChat {
  import opened Wrappers
  import opened Seqs
  import opened ApiDb

  /** `ChatMessageDto`: the receiver is a plain `int`, cast from the nullable column. */
  datatype ChatMessageDto = ChatMessageDto(id: int, senderId: int, receiverId: int, content: string, sentAt: Instant, isRead: bool)

  /** `ConversationDto`. */
  datatype ConversationDto = ConversationDto(
    contactId: int, contactUsername: string, contactAvatarUrl: Option<string>,
    lastMessage: string, lastMessageTimestamp: Instant, unreadCount: nat)

  /** The `(int)m.ReceiverId` cast of a null receiver: the request fails with a server error. */
  datatype HistoryError = NullReceiver(messageId: int)

  function SentAt(m: ChatMessage): int {
    m.sentAt
  }

  function DtoTime(d: ConversationDto): int {
    d.lastMessageTimestamp
  }

  predicate Between(m: ChatMessage, me: int, contact: int) {
    (m.senderId == me && m.receiverId == Some(contact)) || (m.senderId == contact && m.receiverId == Some(me))
  }

  predicate Involves(m: ChatMessage, me: int) {
    m.senderId == me || m.receiverId == Some(me)
  }

  function ToDto(m: ChatMessage): ChatMessageDto
    requires m.receiverId.Some?
  {
    ChatMessageDto(m.id, m.senderId, m.receiverId.value, m.content, m.sentAt, m.isRead)
  }

  /** The projection `new ChatMessageDto { ... }`, failing at the first null receiver. */
  function Project(ms: seq<ChatMessage>): (r: Result<seq<ChatMessageDto>, HistoryError>)
    ensures r.Failure? <==> exists m | m in ms :: m.receiverId.None?
    ensures r.Success? ==> |r.value| == |ms| && forall k | 0 <= k < |ms| :: ms[k].receiverId.Some? && r.value[k] == ToDto(ms[k])
  {
    if ms == [] then Success([])
    else if ms[0].receiverId.None? then Failure(NullReceiver(ms[0].id))
    else
      var rest := Project(ms[1..]);
      assert forall k | 1 <= k < |ms| :: ms[k] == ms[1..][k - 1];
      assert ms == [ms[0]] + ms[1..];
      if rest.Failure? then rest
      else Success([ToDto(ms[0])] + rest.value)
  }

  /** A successful projection of time-ordered messages holds exactly their images, still in time order. */
  lemma ProjectContents(ms: seq<ChatMessage>)
    requires Project(ms).Success?
    ensures forall m | m in ms :: m.receiverId.Some? && ToDto(m) in Project(ms).value
    ensures forall d | d in Project(ms).value :: exists m | m in ms :: m.receiverId.Some? && d == ToDto(m)
    ensures SortedBy(ms, SentAt) ==> forall i, j | 0 <= i < j < |ms| :: Project(ms).value[i].sentAt <= Project(ms).value[j].sentAt
  {
    var h := Project(ms).value;
    forall m | m in ms ensures m.receiverId.Some? && ToDto(m) in h {
      var k :| 0 <= k < |ms| && ms[k] == m;
      assert h[k] == ToDto(m);
    }
  }

  /** The `Where` condition of the history with one contact. */
  function WithContact(me: int, contact: int): ChatMessage -> bool {
    (m: ChatMessage) => Between(m, me, contact)
  }

  /**
   * `GetChatHistory(contactId)`: the messages between the caller and the contact,
   * in either direction, oldest first. It never fails, and has one entry per
   * message exchanged with the contact.
   */
  function GetChatHistoryWith(ms: seq<ChatMessage>, me: int, contact: int): (r: Result<seq<ChatMessageDto>, HistoryError>)
    ensures r.Success? && |r.value| == Count(ms, WithContact(me, contact))
  {
    HistoryWithProjects(ms, me, contact);
    Project(SortBy(Filter(ms, WithContact(me, contact)), SentAt))
  }

  /** Every selected message has a receiver, so the projection keeps them all. */
  lemma HistoryWithProjects(ms: seq<ChatMessage>, me: int, contact: int)
    ensures var r := Project(SortBy(Filter(ms, WithContact(me, contact)), SentAt));
      r.Success? && |r.value| == Count(ms, WithContact(me, contact))
  {
    var p := WithContact(me, contact);
    var selected := Filter(ms, p);
    var sorted := SortBy(selected, SentAt);
    SameMembers(sorted, selected);
    CountIsFilterSize(ms, p);
    forall m | m in sorted
      ensures m.receiverId.Some?
    {
      assert p(m) && Between(m, me, contact);
    }
  }

  /**
   * The history with one contact never fails (a selected message always has a
   * receiver), is ordered by time, and holds exactly the messages exchanged with
   * the contact, in both directions.
   */
  lemma ChatHistoryWithContact(ms: seq<ChatMessage>, me: int, contact: int)
    ensures GetChatHistoryWith(ms, me, contact).Success?
    ensures var h := GetChatHistoryWith(ms, me, contact).value;
      (forall i, j | 0 <= i < j < |h| :: h[i].sentAt <= h[j].sentAt) &&
      (forall d | d in h :: (d.senderId == me && d.receiverId == contact) || (d.senderId == contact && d.receiverId == me)) &&
      (forall m | m in ms && Between(m, me, contact) :: ToDto(m) in h)
  {
    var p := WithContact(me, contact);
    var selected := Filter(ms, p);
    var sorted := SortBy(selected, SentAt);
    SameMembers(sorted, selected);
    HistoryWithProjects(ms, me, contact);
    ProjectContents(sorted);
    var h := Project(sorted).value;
    forall d | d in h
      ensures (d.senderId == me && d.receiverId == contact) || (d.senderId == contact && d.receiverId == me)
    {
      var m :| m in sorted && m.receiverId.Some? && d == ToDto(m);
      assert p(m) && Between(m, me, contact);
    }
    forall m | m in ms && Between(m, me, contact)
      ensures ToDto(m) in h
    {
      assert p(m) && m in selected;
    }
  }

  /**
   * `GetChatHistory()`: every message the caller sent or received, oldest first;
   * a selected message without a receiver (one the caller sent to nobody) makes
   * the cast, and so the request, fail.
   */
  function GetChatHistory(ms: seq<ChatMessage>, me: int): (r: Result<seq<ChatMessageDto>, HistoryError>)
    ensures r.Failure? <==> exists m | m in ms :: Involves(m, me) && m.receiverId.None?
    ensures r.Success? ==> forall i, j | 0 <= i < j < |r.value| :: r.value[i].sentAt <= r.value[j].sentAt
    ensures r.Success? ==> forall d | d in r.value :: d.senderId == me || d.receiverId == me
    ensures r.Success? ==> forall m | m in ms && Involves(m, me) :: ToDto(m) in r.value
  {
    var selected := Filter(ms, (m: ChatMessage) => Involves(m, me));
    var sorted := SortBy(selected, SentAt);
    SameMembers(sorted, selected);
    var r := Project(sorted);
    if r.Success? then
      ProjectContents(sorted);
      r
    else r
  }

  /** A message the caller sent without a receiver makes the whole history fail. */
  lemma NullReceiverFailsHistory()
    ensures GetChatHistory([ChatMessage(1, 7, None, "oi", 5, false)], 7).Failure?
  {
    var m := ChatMessage(1, 7, None, "oi", 5, false);
    assert m in [m];
  }

  // ---------------------------------------------------------------------------
  // GetConversations
  // ---------------------------------------------------------------------------

  /** `m.SenderId == me ? m.ReceiverId : m.SenderId`: the grouping key, null for a message sent to nobody. */
  function Counterpart(m: ChatMessage, me: int): Option<int> {
    if m.senderId == me then m.receiverId else Some(m.senderId)
  }

  /** The distinct grouping keys of the caller's messages, in order of first appearance. */
  function Keys(ms: seq<ChatMessage>, me: int): (r: seq<Option<int>>)
    ensures Distinct(r)
    ensures forall k :: k in r <==> exists m | m in ms :: Involves(m, me) && Counterpart(m, me) == k
  {
    if ms == [] then []
    else
      var front := Keys(ms[..|ms| - 1], me);
      var m := ms[|ms| - 1];
      assert ms == ms[..|ms| - 1] + [m];
      if Involves(m, me) && Counterpart(m, me) !in front then front + [Counterpart(m, me)] else front
  }

  /** The group of one key: the caller's messages with that counterpart. */
  function Group(ms: seq<ChatMessage>, me: int, key: Option<int>): (r: seq<ChatMessage>)
    ensures forall m | m in r :: m in ms && Involves(m, me) && Counterpart(m, me) == key
    ensures forall m | m in ms && Involves(m, me) && Counterpart(m, me) == key :: m in r
  {
    Filter(ms, (m: ChatMessage) => Involves(m, me) && Counterpart(m, me) == key)
  }

  /** `g.OrderByDescending(m => m.SentAt).FirstOrDefault()`: the latest message (the first such one on a tie). */
  function LatestChat(ms: seq<ChatMessage>): (r: Option<ChatMessage>)
    ensures r.None? <==> ms == []
    ensures r.Some? ==> r.value in ms && forall m | m in ms :: m.sentAt <= r.value.sentAt
  {
    if ms == [] then None
    else
      var rest := LatestChat(ms[1..]);
      if rest.None? || rest.value.sentAt <= ms[0].sentAt then Some(ms[0]) else rest
  }

  /** `UnreadCount`: unread messages from the contact to the caller, over the whole table. */
  function Unread(ms: seq<ChatMessage>, me: int, contact: int): (n: nat)
    ensures n <= |ms|
    ensures n == 0 <==> forall m | m in ms :: !(m.receiverId == Some(me) && m.senderId == contact && !m.isRead)
  {
    Count(ms, (m: ChatMessage) => m.receiverId == Some(me) && m.senderId == contact && !m.isRead)
  }

  function Summary(ms: seq<ChatMessage>, profiles: seq<Profile>, me: int, u: User): ConversationDto {
    var last := LatestChat(Group(ms, me, Some(u.id)));
    ConversationDto(
      u.id, u.username, AvatarOf(profiles, u.id),
      if last.Some? then last.value.content else "",
      if last.Some? then last.value.sentAt else MinValue,
      Unread(ms, me, u.id))
  }

  /** The inner join of the groups with `Users`: a null key or a key without a user row drops the group. */
  function JoinUsers(keys: seq<Option<int>>, ms: seq<ChatMessage>, users: seq<User>, profiles: seq<Profile>, me: int): (r: seq<ConversationDto>)
    ensures |r| <= |keys|
    ensures forall k | 0 <= k < |r| :: Some(r[k].contactId) in keys
  {
    if keys == [] then []
    else
      var rest := JoinUsers(keys[1..], ms, users, profiles, me);
      var k := keys[0];
      if k.Some? && FindUser(users, k.value).Some? then [Summary(ms, profiles, me, FindUser(users, k.value).value)] + rest
      else rest
  }

  /** The joined rows are the summaries of exactly the keys that name a user. */
  lemma {:induction false} JoinUsersRows(keys: seq<Option<int>>, ms: seq<ChatMessage>, users: seq<User>, profiles: seq<Profile>, me: int)
    ensures forall d | d in JoinUsers(keys, ms, users, profiles, me) ::
              FindUser(users, d.contactId).Some? && d == Summary(ms, profiles, me, FindUser(users, d.contactId).value)
    ensures forall k | k in keys && k.Some? && FindUser(users, k.value).Some? ::
              Summary(ms, profiles, me, FindUser(users, k.value).value) in JoinUsers(keys, ms, users, profiles, me)
  {
    if keys != [] {
      JoinUsersRows(keys[1..], ms, users, profiles, me);
      assert forall k | k in keys :: k == keys[0] || k in keys[1..];
    }
  }

  /** `GetConversations()`: one summary per counterpart with a user row, latest conversation first. */
  function GetConversations(ms: seq<ChatMessage>, users: seq<User>, profiles: seq<Profile>, me: int): (r: seq<ConversationDto>)
    ensures SortedDescBy(r, DtoTime)
  {
    SortDescBy(JoinUsers(Keys(ms, me), ms, users, profiles, me), DtoTime)
  }

  /** The summary of a counterpart carries their unread count and their latest message. */
  lemma SummaryOfCounterpart(ms: seq<ChatMessage>, profiles: seq<Profile>, me: int, u: User)
    requires exists m | m in ms :: Involves(m, me) && Counterpart(m, me) == Some(u.id)
    ensures var d := Summary(ms, profiles, me, u);
              d.unreadCount == Unread(ms, me, u.id) &&
              (exists m | m in ms :: Involves(m, me) && Counterpart(m, me) == Some(u.id) &&
                 d.lastMessage == m.content && d.lastMessageTimestamp == m.sentAt) &&
              (forall m | m in ms && Involves(m, me) && Counterpart(m, me) == Some(u.id) :: m.sentAt <= d.lastMessageTimestamp)
  {
    var g := Group(ms, me, Some(u.id));
    var m0 :| m0 in ms && Involves(m0, me) && Counterpart(m0, me) == Some(u.id);
    assert m0 in g;
  }

  /** `ConversationsByCounterpart` before the rows are sorted. */
  lemma JoinedByCounterpart(ms: seq<ChatMessage>, users: seq<User>, profiles: seq<Profile>, me: int, contact: int)
    ensures (exists d | d in JoinUsers(Keys(ms, me), ms, users, profiles, me) :: d.contactId == contact)
        <==> FindUser(users, contact).Some? && exists m | m in ms :: Involves(m, me) && Counterpart(m, me) == Some(contact)
    ensures forall d | d in JoinUsers(Keys(ms, me), ms, users, profiles, me) && d.contactId == contact ::
              d == Summary(ms, profiles, me, FindUser(users, contact).value) &&
              exists m | m in ms :: Involves(m, me) && Counterpart(m, me) == Some(contact)
  {
    var keys := Keys(ms, me);
    var joined := JoinUsers(keys, ms, users, profiles, me);
    JoinUsersRows(keys, ms, users, profiles, me);
    if FindUser(users, contact).Some? && exists m | m in ms :: Involves(m, me) && Counterpart(m, me) == Some(contact) {
      assert Some(contact) in keys;
      assert Summary(ms, profiles, me, FindUser(users, contact).value) in joined;
    }
    forall d | d in joined && d.contactId == contact
      ensures exists m | m in ms :: Involves(m, me) && Counterpart(m, me) == Some(contact)
    {
      var k :| 0 <= k < |joined| && joined[k] == d;
      assert Some(contact) in keys;
    }
  }

  /**
   * A contact is listed exactly when the caller exchanged a message with them and
   * they have a user row; the row carries their latest message and the count of
   * their unread messages to the caller.
   */
  lemma ConversationsByCounterpart(ms: seq<ChatMessage>, users: seq<User>, profiles: seq<Profile>, me: int, contact: int)
    ensures (exists d | d in GetConversations(ms, users, profiles, me) :: d.contactId == contact)
        <==> FindUser(users, contact).Some? && exists m | m in ms :: Involves(m, me) && Counterpart(m, me) == Some(contact)
    ensures forall d | d in GetConversations(ms, users, profiles, me) && d.contactId == contact ::
              d.unreadCount == Unread(ms, me, contact) &&
              (exists m | m in ms :: Involves(m, me) && Counterpart(m, me) == Some(contact) &&
                 d.lastMessage == m.content && d.lastMessageTimestamp == m.sentAt) &&
              (forall m | m in ms && Involves(m, me) && Counterpart(m, me) == Some(contact) :: m.sentAt <= d.lastMessageTimestamp)
  {
    var joined := JoinUsers(Keys(ms, me), ms, users, profiles, me);
    var r := GetConversations(ms, users, profiles, me);
    SameMembers(r, joined);
    JoinedByCounterpart(ms, users, profiles, me, contact);
    forall d | d in r && d.contactId == contact
      ensures d.unreadCount == Unread(ms, me, contact) &&
              (exists m | m in ms :: Involves(m, me) && Counterpart(m, me) == Some(contact) &&
                 d.lastMessage == m.content && d.lastMessageTimestamp == m.sentAt) &&
              (forall m | m in ms && Involves(m, me) && Counterpart(m, me) == Some(contact) :: m.sentAt <= d.lastMessageTimestamp)
    {
      assert d in joined;
      SummaryOfCounterpart(ms, profiles, me, FindUser(users, contact).value);
    }
  }

  predicate DistinctContacts(r: seq<ConversationDto>) {
    forall i, j | 0 <= i < j < |r| :: r[i].contactId != r[j].contactId
  }

  /** No contact is listed twice. */
  lemma ConversationsHaveDistinctContacts(ms: seq<ChatMessage>, users: seq<User>, profiles: seq<Profile>, me: int)
    ensures DistinctContacts(GetConversations(ms, users, profiles, me))
  {
    var keys := Keys(ms, me);
    var joined := JoinUsers(keys, ms, users, profiles, me);
    DistinctJoin(keys, ms, users, profiles, me);
    DistinctContactsPermutation(joined, GetConversations(ms, users, profiles, me));
  }

  /** Reordering rows keeps their contacts distinct. */
  lemma DistinctContactsPermutation(a: seq<ConversationDto>, b: seq<ConversationDto>)
    requires DistinctContacts(a) && multiset(a) == multiset(b)
    ensures DistinctContacts(b)
  {
    assert Distinct(a);
    DistinctPermutation(a, b);
    SameMembers(a, b);
    forall i, j | 0 <= i < j < |b| ensures b[i].contactId != b[j].contactId {
      assert b[i] in a && b[j] in a;
      var p :| 0 <= p < |a| && a[p] == b[i];
      var q :| 0 <= q < |a| && a[q] == b[j];
      assert p != q;
    }
  }

  lemma {:induction false} DistinctJoin(keys: seq<Option<int>>, ms: seq<ChatMessage>, users: seq<User>, profiles: seq<Profile>, me: int)
    requires Distinct(keys)
    ensures DistinctContacts(JoinUsers(keys, ms, users, profiles, me))
  {
    if keys != [] {
      var tail := keys[1..];
      DistinctTail(keys);
      DistinctJoin(tail, ms, users, profiles, me);
      var rest := JoinUsers(tail, ms, users, profiles, me);
      var k := keys[0];
      if k.Some? && FindUser(users, k.value).Some? {
        var d := Summary(ms, profiles, me, FindUser(users, k.value).value);
        assert d.contactId == k.value;
        assert k !in tail;
        ConsDistinctContacts(d, rest, tail);
      }
    }
  }

  lemma DistinctTail<T>(s: seq<T>)
    requires s != [] && Distinct(s)
    ensures Distinct(s[1..])
  {
    forall i, j | 0 <= i < j < |s| - 1 ensures s[1..][i] != s[1..][j] {
      assert s[1..][i] == s[i + 1] && s[1..][j] == s[j + 1];
    }
  }

  lemma ConsDistinctContacts(d: ConversationDto, rest: seq<ConversationDto>, keys: seq<Option<int>>)
    requires DistinctContacts(rest)
    requires forall k | 0 <= k < |rest| :: Some(rest[k].contactId) in keys
    requires Some(d.contactId) !in keys
    ensures DistinctContacts([d] + rest)
  {
    var r := [d] + rest;
    forall i, j | 0 <= i < j < |r| ensures r[i].contactId != r[j].contactId {
      assert r[j] == rest[j - 1];
      if i > 0 {
        assert r[i] == rest[i - 1];
      }
    }
  }
}
