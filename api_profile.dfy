/**
 * `Controllers/ProfileController.cs`: the ASP.NET profiles. Reading is open to
 * anyone and shows the email; updating is keyed by the caller's
 * `NameIdentifier` claim, `me`, and never creates a profile.
 */
module ApiProfile {
  import opened Wrappers
  import opened Http
  import opened ApiDb
  import opened ApiDtos

  const ProfileNotFound := "Perfil não encontrado."
  const OwnProfileNotFound := "Perfil não encontrado para o usuário autenticado."

  /** `ProfileDto`. */
  datatype ProfileDto = ProfileDto(
    userId: int, username: string, email: string,
    bio: Option<string>, location: Option<string>, avatarUrl: Option<string>, memberSince: Instant)

  /** `GetProfile`: 404 for an unknown user; else the user's fields with the profile's, null without a profile. */
  function GetProfile(users: seq<User>, profiles: seq<Profile>, userId: int): (r: Response<ProfileDto>)
    ensures r == Refusal(404, ProfileNotFound) <==> FindUser(users, userId).None?
    ensures r.Reply? ==> var u := FindUser(users, userId).value; var p := FindProfileOf(profiles, userId);
      r.status == 200 && r.body.userId == userId && r.body.username == u.username && r.body.email == u.email &&
      r.body.memberSince == u.createdAt &&
      (p.None? ==> r.body.bio.None? && r.body.location.None? && r.body.avatarUrl.None?) &&
      (p.Some? ==> r.body.bio == p.value.bio && r.body.location == p.value.location && r.body.avatarUrl == p.value.avatarUrl)
  {
    var u := FindUser(users, userId);
    if u.None? then Refusal(404, ProfileNotFound)
    else
      var p := FindProfileOf(profiles, u.value.id);
      if p.None? then Reply(200, ProfileDto(u.value.id, u.value.username, u.value.email, None, None, None, u.value.createdAt))
      else Reply(200, ProfileDto(u.value.id, u.value.username, u.value.email,
                                 p.value.bio, p.value.location, p.value.avatarUrl, u.value.createdAt))
  }

  /** The tracked entity after the assignments: all three fields from the DTO, null included, and `UpdatedAt`. */
  function Overwritten(p: Profile, dto: UpdateProfileDto, now: Instant): (q: Profile)
    ensures q.id == p.id && q.userId == p.userId && q.createdAt == p.createdAt
    ensures q.bio == dto.bio && q.location == dto.location && q.avatarUrl == dto.avatarUrl && q.updatedAt == now
  {
    p.(bio := dto.bio, location := dto.location, avatarUrl := dto.avatarUrl, updatedAt := now)
  }

  /** `SaveChanges` for the modified entity: the row with its key is replaced, the others stay. */
  function SaveProfile(ps: seq<Profile>, q: Profile): (r: seq<Profile>)
    ensures |r| == |ps|
    ensures forall k | 0 <= k < |ps| :: r[k] == if ps[k].id == q.id then q else ps[k]
  {
    if ps == [] then [] else [if ps[0].id == q.id then q else ps[0]] + SaveProfile(ps[1..], q)
  }

  /**
   * `UpdateProfile`: 400 for an invalid DTO; 404 when the caller has no
   * profile, with nothing created; else the caller's profile overwritten and 204.
   */
  method UpdateProfile(db: AppDb, me: int, dto: UpdateProfileDto, isUrl: string -> bool, now: Instant) returns (r: Response<()>)
    requires db.Valid()
    modifies db
    ensures db.Valid()
    ensures !UpdateProfileValid(dto, isUrl) ==> r == Refusal(400, ValidationFailed) && db.profiles == old(db.profiles)
    ensures UpdateProfileValid(dto, isUrl) && FindProfileOf(old(db.profiles), me).None? ==>
              r == Refusal(404, OwnProfileNotFound) && db.profiles == old(db.profiles)
    ensures UpdateProfileValid(dto, isUrl) && FindProfileOf(old(db.profiles), me).Some? ==>
              r == Reply(204, ()) &&
              db.profiles == SaveProfile(old(db.profiles), Overwritten(FindProfileOf(old(db.profiles), me).value, dto, now))
    ensures db.nextProfileId == old(db.nextProfileId) && db.users == old(db.users)
    ensures db.publications == old(db.publications) && db.chatMessages == old(db.chatMessages)
    ensures db.nextUserId == old(db.nextUserId) && db.nextPublicationId == old(db.nextPublicationId)
  {
    if !UpdateProfileValid(dto, isUrl) {
      return Refusal(400, ValidationFailed);
    }
    var p := FindProfileOf(db.profiles, me);
    if p.None? {
      return Refusal(404, OwnProfileNotFound);
    }
    db.profiles := SaveProfile(db.profiles, Overwritten(p.value, dto, now));
    r := Reply(204, ());
  }

  lemma {:induction false} SaveProfileFinds(ps: seq<Profile>, me: int, q: Profile)
    requires FindProfileOf(ps, me).Some? && q.id == FindProfileOf(ps, me).value.id && q.userId == me
    ensures FindProfileOf(SaveProfile(ps, q), me) == Some(q)
  {
    var r := SaveProfile(ps, q);
    assert r == [r[0]] + SaveProfile(ps[1..], q);
    if ps[0].id != q.id {
      assert ps[0].userId != me;
      SaveProfileFinds(ps[1..], me, q);
    }
  }

  /** What the caller saved is what anyone then reads: the profile shows exactly the DTO's three fields. */
  lemma UpdateThenGet(users: seq<User>, ps: seq<Profile>, me: int, dto: UpdateProfileDto, now: Instant)
    requires FindUser(users, me).Some? && FindProfileOf(ps, me).Some?
    ensures var r := GetProfile(users, SaveProfile(ps, Overwritten(FindProfileOf(ps, me).value, dto, now)), me);
      r.Reply? && r.body.bio == dto.bio && r.body.location == dto.location && r.body.avatarUrl == dto.avatarUrl
  {
    SaveProfileFinds(ps, me, Overwritten(FindProfileOf(ps, me).value, dto, now));
  }
}
