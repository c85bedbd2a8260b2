/**
 * The Entity Framework tables behind the ASP.NET back end (`Geta.API`), held in
 * memory. A `DateTime` is a whole number of ticks; identity columns draw from
 * one counter per table.
 */
module ApiDb {
  import opened Wrappers

  type Instant = nat

  /** `DateTime.MinValue`: no instant is earlier. */
  const MinValue: Instant := 0

  /** `Users`. */
  datatype User = User(id: int, username: string, email: string, passwordHash: string, createdAt: Instant, updatedAt: Instant)

  /** `Profiles`: one per user, every content column nullable. */
  datatype Profile = Profile(
    id: int, userId: int, bio: Option<string>, location: Option<string>, avatarUrl: Option<string>,
    createdAt: Instant, updatedAt: Instant)

  /** `Publications`. */
  datatype Publication = Publication(id: int, userId: int, content: string, createdAt: Instant, updatedAt: Instant)

  /** `ChatMessages`: the receiver column is nullable. */
  datatype ChatMessage = ChatMessage(id: int, senderId: int, receiverId: Option<int>, content: string, sentAt: Instant, isRead: bool)

  /** `UserDto`: what the API tells about a user (never the password hash). */
  datatype UserDto = UserDto(id: int, username: string, email: string, createdAt: Instant)

  function ToUserDto(u: User): UserDto {
    UserDto(u.id, u.username, u.email, u.createdAt)
  }

  function FindUser(us: seq<User>, id: int): (r: Option<User>)
    ensures r.Some? ==> r.value in us && r.value.id == id
    ensures r.None? <==> forall u | u in us :: u.id != id
  {
    if us == [] then None
    else if us[0].id == id then Some(us[0])
    else FindUser(us[1..], id)
  }

  /** `FirstOrDefault(u => u.Email == email)`. */
  function FindUserByEmail(us: seq<User>, email: string): (r: Option<User>)
    ensures r.Some? ==> r.value in us && r.value.email == email
    ensures r.None? <==> forall u | u in us :: u.email != email
  {
    if us == [] then None
    else if us[0].email == email then Some(us[0])
    else FindUserByEmail(us[1..], email)
  }

  /** `user.Profile`: the profile row owned by the user, if any. */
  function FindProfileOf(ps: seq<Profile>, userId: int): (r: Option<Profile>)
    ensures r.Some? ==> r.value in ps && r.value.userId == userId
    ensures r.None? <==> forall p | p in ps :: p.userId != userId
  {
    if ps == [] then None
    else if ps[0].userId == userId then Some(ps[0])
    else FindProfileOf(ps[1..], userId)
  }

  /** `user.Profile != null ? user.Profile.AvatarUrl : null`. */
  function AvatarOf(ps: seq<Profile>, userId: int): (r: Option<string>)
    ensures FindProfileOf(ps, userId).None? ==> r.None?
    ensures FindProfileOf(ps, userId).Some? ==> r == FindProfileOf(ps, userId).value.avatarUrl
  {
    var p := FindProfileOf(ps, userId);
    if p.Some? then p.value.avatarUrl else None
  }

  function FindPublication(ps: seq<Publication>, id: int): (r: Option<Publication>)
    ensures r.Some? ==> r.value in ps && r.value.id == id
    ensures r.None? <==> forall p | p in ps :: p.id != id
  {
    if ps == [] then None
    else if ps[0].id == id then Some(ps[0])
    else FindPublication(ps[1..], id)
  }

  /** The database context: one field per `DbSet`, one identity counter per table. */
  class AppDb {
    var users: seq<User>
    var profiles: seq<Profile>
    var publications: seq<Publication>
    var chatMessages: seq<ChatMessage>
    var nextUserId: int
    var nextProfileId: int
    var nextPublicationId: int

    /** Every stored id was drawn from its counter, so the next one is fresh. */
    ghost predicate Valid()
      reads this
    {
      && (forall u | u in users :: u.id < nextUserId)
      && (forall p | p in profiles :: p.id < nextProfileId)
      && (forall p | p in publications :: p.id < nextPublicationId)
    }

    constructor ()
      ensures Valid()
      ensures users == [] && profiles == [] && publications == [] && chatMessages == []
      ensures nextUserId == 1 && nextProfileId == 1 && nextPublicationId == 1
    {
      users, profiles, publications, chatMessages := [], [], [], [];
      nextUserId, nextProfileId, nextPublicationId := 1, 1, 1;
    }
  }
}
