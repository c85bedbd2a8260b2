/**
 * `Controllers/PublicationsController.cs`: the ASP.NET publications. The
 * author of a new publication is the caller's `NameIdentifier` claim, `me`;
 * `DateTime.UtcNow` is the parameter `now`.
 */
module ApiPublications {
  import opened Wrappers
  import opened Seqs
  import opened Http
  import opened ApiDb
  import opened ApiDtos

  /** `PublicationDto`. */
  datatype PublicationDto = PublicationDto(
    id: int, userId: int, username: string, userAvatarUrl: Option<string>,
    content: string, createdAt: Instant, updatedAt: Instant)

  /** The projection of a publication with its author (and the author's profile, when there is one). */
  function DtoOf(p: Publication, author: User, profiles: seq<Profile>): (d: PublicationDto)
    ensures d.id == p.id && d.userId == p.userId && d.content == p.content
    ensures d.username == author.username && d.userAvatarUrl == AvatarOf(profiles, author.id)
    ensures d.createdAt == p.createdAt && d.updatedAt == p.updatedAt
  {
    PublicationDto(p.id, p.userId, author.username, AvatarOf(profiles, author.id), p.content, p.createdAt, p.updatedAt)
  }

  function CreatedAt(d: PublicationDto): int {
    d.createdAt
  }

  /** Whether the publication's author row exists; `Include` drops the publication otherwise. */
  function HasAuthor(users: seq<User>): Publication -> bool {
    (p: Publication) => FindUser(users, p.userId).Some?
  }

  /** `Publications.Include(p => p.User)`: one DTO per publication with its author; the author is required. */
  function Joined(ps: seq<Publication>, users: seq<User>, profiles: seq<Profile>): (r: seq<PublicationDto>)
    ensures forall d | d in r :: exists p | p in ps && FindUser(users, p.userId).Some? ::
              d == DtoOf(p, FindUser(users, p.userId).value, profiles)
    ensures forall p | p in ps && FindUser(users, p.userId).Some? :: DtoOf(p, FindUser(users, p.userId).value, profiles) in r
    ensures |r| == Count(ps, HasAuthor(users))
  {
    if ps == [] then []
    else
      var rest := Joined(ps[1..], users, profiles);
      assert forall p | p in ps :: p == ps[0] || p in ps[1..];
      var author := FindUser(users, ps[0].userId);
      if author.Some? then [DtoOf(ps[0], author.value, profiles)] + rest else rest
  }

  /** `GetPublications`: every publication with its author, newest first. */
  function GetPublications(ps: seq<Publication>, users: seq<User>, profiles: seq<Profile>): (r: Response<seq<PublicationDto>>)
    ensures r.Reply? && r.status == 200
    ensures SortedDescBy(r.body, CreatedAt)
    ensures multiset(r.body) == multiset(Joined(ps, users, profiles))
    ensures forall p | p in ps && FindUser(users, p.userId).Some? :: DtoOf(p, FindUser(users, p.userId).value, profiles) in r.body
    ensures forall d | d in r.body :: exists p | p in ps && FindUser(users, p.userId).Some? ::
              d == DtoOf(p, FindUser(users, p.userId).value, profiles)
  {
    var all := Joined(ps, users, profiles);
    var sorted := SortDescBy(all, CreatedAt);
    SameMembers(sorted, all);
    Reply(200, sorted)
  }

  /** `GetPublication`: 404 for an absent id, else the publication's DTO. */
  function GetPublication(ps: seq<Publication>, users: seq<User>, profiles: seq<Profile>, id: int): (r: Response<PublicationDto>)
    ensures r.Refusal? <==> FindPublication(ps, id).None? || FindUser(users, FindPublication(ps, id).value.userId).None?
    ensures r.Refusal? ==> r.status == 404
    ensures r.Reply? ==> var p := FindPublication(ps, id).value;
              r == Reply(200, DtoOf(p, FindUser(users, p.userId).value, profiles)) && r.body.id == id
  {
    var p := FindPublication(ps, id);
    if p.None? then Refusal(404, "")
    else
      var author := FindUser(users, p.value.userId);
      if author.None? then Refusal(404, "") else Reply(200, DtoOf(p.value, author.value, profiles))
  }

  /** The publication `CreatePublication` adds: the caller as author, the DTO's content, both times `now`. */
  function NewPublication(id: int, me: int, dto: CreatePublicationDto, now: Instant): (p: Publication)
    requires dto.content.Some?
    ensures p.id == id && p.userId == me && p.content == dto.content.value
    ensures p.createdAt == now && p.updatedAt == now
  {
    Publication(id, me, dto.content.value, now, now)
  }

  /**
   * `CreatePublication`: 400 for an invalid DTO; an author that does not exist
   * breaks the foreign key and is a server error with nothing saved; otherwise
   * exactly one publication is added and answered with 201 and its DTO.
   */
  method CreatePublication(db: AppDb, me: int, dto: CreatePublicationDto, now: Instant) returns (r: Response<PublicationDto>)
    requires db.Valid()
    modifies db
    ensures db.Valid()
    ensures !CreatePublicationValid(dto) ==> r == Refusal(400, ValidationFailed) && db.publications == old(db.publications)
    ensures CreatePublicationValid(dto) && FindUser(db.users, me).None? ==>
              r == Refusal(500, InternalError) && db.publications == old(db.publications)
    ensures CreatePublicationValid(dto) && FindUser(db.users, me).Some? ==>
              var p := NewPublication(old(db.nextPublicationId), me, dto, now);
              db.publications == old(db.publications) + [p] && db.nextPublicationId == old(db.nextPublicationId) + 1 &&
              r == Reply(201, DtoOf(p, FindUser(db.users, me).value, db.profiles))
    ensures r.Refusal? ==> db.nextPublicationId == old(db.nextPublicationId)
    ensures db.users == old(db.users) && db.profiles == old(db.profiles) && db.chatMessages == old(db.chatMessages)
    ensures db.nextUserId == old(db.nextUserId) && db.nextProfileId == old(db.nextProfileId)
  {
    if !CreatePublicationValid(dto) {
      return Refusal(400, ValidationFailed);
    }
    var author := FindUser(db.users, me);
    if author.None? {
      return Refusal(500, InternalError);
    }
    var p := NewPublication(db.nextPublicationId, me, dto, now);
    db.publications := db.publications + [p];
    db.nextPublicationId := db.nextPublicationId + 1;
    r := Reply(201, DtoOf(p, author.value, db.profiles));
  }

  lemma {:induction false} FindPublicationFresh(ps: seq<Publication>, p: Publication)
    requires forall q | q in ps :: q.id < p.id
    ensures FindPublication(ps + [p], p.id) == Some(p)
  {
    if ps != [] {
      assert (ps + [p])[1..] == ps[1..] + [p];
      assert ps[0] in ps;
      FindPublicationFresh(ps[1..], p);
    }
  }

  /** A publication just created is found by `GetPublication` under its new id, with the same DTO the creation answered. */
  lemma CreatedIsRetrievable(ps: seq<Publication>, users: seq<User>, profiles: seq<Profile>, p: Publication)
    requires forall q | q in ps :: q.id < p.id
    requires FindUser(users, p.userId).Some?
    ensures GetPublication(ps + [p], users, profiles, p.id) == Reply(200, DtoOf(p, FindUser(users, p.userId).value, profiles))
  {
    FindPublicationFresh(ps, p);
  }

  /** The listing shows a new publication too: it is among the DTOs `GetPublications` returns. */
  lemma CreatedIsListed(ps: seq<Publication>, users: seq<User>, profiles: seq<Profile>, p: Publication)
    requires FindUser(users, p.userId).Some?
    ensures DtoOf(p, FindUser(users, p.userId).value, profiles) in GetPublications(ps + [p], users, profiles).body
  {
    assert p in ps + [p];
  }
}
