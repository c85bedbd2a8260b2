/**
 * `controllers/profileController.js`: the Node handlers for profiles. The
 * caller's id is the `id` claim the token middleware attached; the user id of
 * a public profile arrives as text and goes through `parseInt(…, 10)`.
 */
module ProfileRoutes {
  import opened Wrappers
  import opened Text
  import opened Http
  import opened NodeDb

  const UserNotFound := "Usuário não encontrado"
  const InvalidUserId := "ID de usuário inválido"

  /** A full row of `usuarios u JOIN perfis p`: the user's columns and the profile's. */
  datatype ProfileRow = ProfileRow(
    userId: int, nomeCompleto: string, email: string, tipoPerfil: string,
    profileId: int, fotoUrl: Option<string>, bio: Option<string>, localizacao: Option<string>, detalhes: Option<Details>)

  /** What `getMyProfile` answers: the basic fields with `profile_incomplete: true`, or the joined row. */
  datatype MyProfile =
    | Incomplete(userId: int, nomeCompleto: string, email: string, tipoPerfil: string)
    | Complete(row: ProfileRow)

  /** The public profile of `getUserProfile`: no email field; the profile's columns are null without a profile. */
  datatype PublicProfile = PublicProfile(
    userId: int, nomeCompleto: string, tipoPerfil: string,
    profileId: Option<int>, fotoUrl: Option<string>, bio: Option<string>, localizacao: Option<string>, detalhes: Option<Details>)

  /** The JSON body of `updateMyProfile`; `None` is an absent field. */
  datatype ProfileBody = ProfileBody(fotoUrl: Option<string>, bio: Option<string>, localizacao: Option<string>, detalhes: Option<Details>)

  function Joined(u: Usuario, p: Perfil): ProfileRow {
    ProfileRow(u.id, u.nomeCompleto, u.email, u.tipoPerfil, p.id, p.fotoUrl, p.bio, p.localizacao, p.detalhes)
  }

  // ---------------------------------------------------------------------------
  // getMyProfile and getUserProfile
  // ---------------------------------------------------------------------------

  /**
   * `getMyProfile`: 404 without the caller's user row; the basic fields when
   * the LEFT JOIN found no profile (a falsy `profile_id`); else the whole row.
   * `storeFails` is a query that throws: 500.
   */
  function GetMyProfile(users: seq<Usuario>, perfis: seq<Perfil>, userId: int, storeFails: bool): (r: Response<MyProfile>)
    ensures r == Refusal(500, InternalError) <==> storeFails
    ensures r == Refusal(404, UserNotFound) <==> !storeFails && FindUsuario(users, userId).None?
    ensures r.Refusal? || r.status == 200
    ensures r.Reply? ==> var u := FindUsuario(users, userId).value; var p := FindPerfil(perfis, userId);
      (r.body.Incomplete? <==> p.None? || p.value.id == 0) &&
      (r.body.Incomplete? ==> r.body == Incomplete(userId, u.nomeCompleto, u.email, u.tipoPerfil)) &&
      (r.body.Complete? ==> r.body.row == Joined(u, p.value) && r.body.row.userId == userId)
  {
    if storeFails then Refusal(500, InternalError)
    else
      var u := FindUsuario(users, userId);
      if u.None? then Refusal(404, UserNotFound)
      else
        var p := FindPerfil(perfis, userId);
        if p.None? || p.value.id == 0 then
          Reply(200, Incomplete(u.value.id, u.value.nomeCompleto, u.value.email, u.value.tipoPerfil))
        else Reply(200, Complete(Joined(u.value, p.value)))
  }

  /** `getUserProfile`: 400 for a non-numeric id, 500 when the query throws, 404 for an unknown user, else the public fields. */
  function GetUserProfile(users: seq<Usuario>, perfis: seq<Perfil>, param: string, storeFails: bool): (r: Response<PublicProfile>)
    ensures r == Refusal(400, InvalidUserId) <==> ParseInt(param).None?
    ensures r == Refusal(500, InternalError) <==> ParseInt(param).Some? && storeFails
    ensures r == Refusal(404, UserNotFound) <==> ParseInt(param).Some? && !storeFails && FindUsuario(users, ParseInt(param).value).None?
    ensures r.Reply? ==> var u := FindUsuario(users, ParseInt(param).value).value; var p := FindPerfil(perfis, u.id);
      r.status == 200 && Some(r.body.userId) == ParseInt(param) &&
      r.body.nomeCompleto == u.nomeCompleto && r.body.tipoPerfil == u.tipoPerfil &&
      (p.None? ==> r.body.profileId.None? && r.body.fotoUrl.None? && r.body.bio.None? &&
                   r.body.localizacao.None? && r.body.detalhes.None?) &&
      (p.Some? ==> r.body.profileId == Some(p.value.id) && r.body.fotoUrl == p.value.fotoUrl &&
                   r.body.bio == p.value.bio && r.body.localizacao == p.value.localizacao && r.body.detalhes == p.value.detalhes)
  {
    var id := ParseInt(param);
    if id.None? then Refusal(400, InvalidUserId)
    else if storeFails then Refusal(500, InternalError)
    else
      var u := FindUsuario(users, id.value);
      if u.None? then Refusal(404, UserNotFound)
      else
        var p := FindPerfil(perfis, u.value.id);
        if p.None? then Reply(200, PublicProfile(u.value.id, u.value.nomeCompleto, u.value.tipoPerfil, None, None, None, None, None))
        else Reply(200, PublicProfile(u.value.id, u.value.nomeCompleto, u.value.tipoPerfil,
                                      Some(p.value.id), p.value.fotoUrl, p.value.bio, p.value.localizacao, p.value.detalhes))
  }

  /** `users'` is `users` with possibly different email addresses and nothing else changed. */
  ghost predicate OnlyEmailsDiffer(users: seq<Usuario>, users': seq<Usuario>) {
    |users'| == |users| && forall k | 0 <= k < |users| :: users'[k] == users[k].(email := users'[k].email)
  }

  lemma {:induction false} FindUsuarioIgnoresEmail(users: seq<Usuario>, users': seq<Usuario>, id: int)
    requires OnlyEmailsDiffer(users, users')
    ensures FindUsuario(users', id).None? <==> FindUsuario(users, id).None?
    ensures FindUsuario(users', id).Some? ==>
              FindUsuario(users', id).value == FindUsuario(users, id).value.(email := FindUsuario(users', id).value.email)
  {
    if users != [] {
      assert users'[0] == users[0].(email := users'[0].email);
      if users[0].id != id {
        assert OnlyEmailsDiffer(users[1..], users'[1..]) by {
          forall k | 0 <= k < |users| - 1
            ensures users'[1..][k] == users[1..][k].(email := users'[1..][k].email)
          {
            assert users'[k + 1] == users[k + 1].(email := users'[k + 1].email);
          }
        }
        FindUsuarioIgnoresEmail(users[1..], users'[1..], id);
      }
    }
  }

  /** The public profile never shows an email: changing every email leaves the answer identical. */
  lemma PublicProfileIgnoresEmail(users: seq<Usuario>, users': seq<Usuario>, perfis: seq<Perfil>, param: string, storeFails: bool)
    requires OnlyEmailsDiffer(users, users')
    ensures GetUserProfile(users', perfis, param, storeFails) == GetUserProfile(users, perfis, param, storeFails)
  {
    var id := ParseInt(param);
    if id.Some? {
      FindUsuarioIgnoresEmail(users, users', id.value);
    }
  }

  // ---------------------------------------------------------------------------
  // updateMyProfile
  // ---------------------------------------------------------------------------

  /** `detalhes || {}`. */
  function DetailsOrEmpty(body: ProfileBody): Details {
    body.detalhes.GetOr(map[])
  }

  /** The UPDATE's new values: the body's fields even when absent (stored as NULL), `detalhes` defaulted. */
  function Rewritten(p: Perfil, body: ProfileBody, now: Time): (q: Perfil)
    ensures q.id == p.id && q.usuarioId == p.usuarioId
    ensures q.fotoUrl == body.fotoUrl && q.bio == body.bio && q.localizacao == body.localizacao
    ensures q.detalhes == Some(DetailsOrEmpty(body)) && q.dataAtualizacao == now
  {
    p.(fotoUrl := body.fotoUrl, bio := body.bio, localizacao := body.localizacao,
       detalhes := Some(DetailsOrEmpty(body)), dataAtualizacao := now)
  }

  /** The row the INSERT stores. */
  function Inserted(id: int, userId: int, body: ProfileBody, now: Time): Perfil {
    Perfil(id, userId, body.fotoUrl, body.bio, body.localizacao, Some(DetailsOrEmpty(body)), now)
  }

  /** `UPDATE perfis … WHERE id = $5`. */
  function RewriteWhere(ps: seq<Perfil>, id: int, body: ProfileBody, now: Time): (r: seq<Perfil>)
    ensures |r| == |ps|
    ensures forall k | 0 <= k < |ps| :: r[k] == if ps[k].id == id then Rewritten(ps[k], body, now) else ps[k]
  {
    if ps == [] then []
    else [if ps[0].id == id then Rewritten(ps[0], body, now) else ps[0]] + RewriteWhere(ps[1..], id, body, now)
  }

  /** The table after `updateMyProfile`: the caller's profile rewritten in place, or a first one added. */
  function Upsert(ps: seq<Perfil>, userId: int, newId: int, body: ProfileBody, now: Time): (r: seq<Perfil>)
    ensures |r| == |ps| + (if FindPerfil(ps, userId).None? then 1 else 0)
    ensures FindPerfil(ps, userId).None? ==> r[..|ps|] == ps && r[|ps|].usuarioId == userId && r[|ps|].id == newId
    ensures FindPerfil(ps, userId).Some? ==> forall k | 0 <= k < |ps| ::
              r[k].id == ps[k].id && r[k].usuarioId == ps[k].usuarioId &&
              (ps[k].id != FindPerfil(ps, userId).value.id ==> r[k] == ps[k])
  {
    var found := FindPerfil(ps, userId);
    if found.None? then ps + [Inserted(newId, userId, body, now)]
    else RewriteWhere(ps, found.value.id, body, now)
  }

  /** At most one profile row per user. */
  ghost predicate OneProfileEach(ps: seq<Perfil>) {
    forall i, j | 0 <= i < j < |ps| :: ps[i].usuarioId != ps[j].usuarioId
  }

  /** No two profile rows share an id. */
  ghost predicate DistinctIds(ps: seq<Perfil>) {
    forall i, j | 0 <= i < j < |ps| :: ps[i].id != ps[j].id
  }

  lemma {:induction false} RewriteWhereFindsRewritten(ps: seq<Perfil>, userId: int, body: ProfileBody, now: Time)
    requires FindPerfil(ps, userId).Some?
    ensures FindPerfil(RewriteWhere(ps, FindPerfil(ps, userId).value.id, body, now), userId) ==
            Some(Rewritten(FindPerfil(ps, userId).value, body, now))
  {
    var id := FindPerfil(ps, userId).value.id;
    var r := RewriteWhere(ps, id, body, now);
    assert r == [r[0]] + RewriteWhere(ps[1..], id, body, now);
    if ps[0].usuarioId != userId {
      assert r[0].usuarioId != userId;
      assert FindPerfil(ps[1..], userId) == FindPerfil(ps, userId);
      RewriteWhereFindsRewritten(ps[1..], userId, body, now);
    }
  }

  /** Upserting gives the caller a profile holding exactly the body's values; an existing row keeps its id. */
  lemma UpsertStoresBody(ps: seq<Perfil>, userId: int, newId: int, body: ProfileBody, now: Time)
    ensures var p := FindPerfil(Upsert(ps, userId, newId, body, now), userId);
      p.Some? && p.value.fotoUrl == body.fotoUrl && p.value.bio == body.bio && p.value.localizacao == body.localizacao &&
      p.value.detalhes == Some(DetailsOrEmpty(body)) && p.value.dataAtualizacao == now &&
      p.value.id == (if FindPerfil(ps, userId).Some? then FindPerfil(ps, userId).value.id else newId)
  {
    if FindPerfil(ps, userId).Some? {
      RewriteWhereFindsRewritten(ps, userId, body, now);
    } else {
      FindPerfilAppend(ps, Inserted(newId, userId, body, now), userId);
    }
  }

  lemma {:induction false} FindPerfilAppend(ps: seq<Perfil>, q: Perfil, userId: int)
    ensures FindPerfil(ps + [q], userId) ==
            if FindPerfil(ps, userId).Some? then FindPerfil(ps, userId) else if q.usuarioId == userId then Some(q) else None
  {
    if ps != [] {
      assert (ps + [q])[1..] == ps[1..] + [q];
      FindPerfilAppend(ps[1..], q, userId);
    }
  }

  /** The upsert never makes a second profile for anybody: an update keeps the row count, an insert adds one row. */
  lemma UpsertKeepsOneProfileEach(ps: seq<Perfil>, userId: int, newId: int, body: ProfileBody, now: Time)
    requires OneProfileEach(ps)
    ensures OneProfileEach(Upsert(ps, userId, newId, body, now))
    ensures |Upsert(ps, userId, newId, body, now)| == if FindPerfil(ps, userId).Some? then |ps| else |ps| + 1
  {
  }

  lemma {:induction false} RewriteWhereKeepsOthers(ps: seq<Perfil>, id: int, body: ProfileBody, now: Time, other: int)
    requires FindPerfil(ps, other).None? || FindPerfil(ps, other).value.id != id
    ensures FindPerfil(RewriteWhere(ps, id, body, now), other) == FindPerfil(ps, other)
  {
    if ps != [] {
      var r := RewriteWhere(ps, id, body, now);
      assert r == [r[0]] + RewriteWhere(ps[1..], id, body, now);
      if ps[0].usuarioId != other {
        RewriteWhereKeepsOthers(ps[1..], id, body, now, other);
      }
    }
  }

  /** With distinct profile ids, the upsert leaves every other user's profile as it was. */
  lemma UpsertLeavesOthers(ps: seq<Perfil>, userId: int, newId: int, body: ProfileBody, now: Time, other: int)
    requires DistinctIds(ps) && other != userId
    ensures FindPerfil(Upsert(ps, userId, newId, body, now), other) == FindPerfil(ps, other)
  {
    var found := FindPerfil(ps, userId);
    if found.None? {
      FindPerfilAppend(ps, Inserted(newId, userId, body, now), other);
    } else {
      var mine := FindPerfil(ps, other);
      if mine.Some? {
        var i :| 0 <= i < |ps| && ps[i] == found.value;
        var j :| 0 <= j < |ps| && ps[j] == mine.value;
        assert i != j;
      }
      RewriteWhereKeepsOthers(ps, found.value.id, body, now, other);
    }
  }

  /** The answer of `updateMyProfile`: the first joined row, or nothing (an empty JSON body) without the user row. */
  function JoinedProfile(users: seq<Usuario>, perfis: seq<Perfil>, userId: int): (r: Option<ProfileRow>)
    ensures r.Some? <==> FindUsuario(users, userId).Some? && FindPerfil(perfis, userId).Some?
    ensures r.Some? ==> r.value == Joined(FindUsuario(users, userId).value, FindPerfil(perfis, userId).value)
  {
    var u := FindUsuario(users, userId);
    var p := FindPerfil(perfis, userId);
    if u.Some? && p.Some? then Some(Joined(u.value, p.value)) else None
  }

  /** After an update by an existing user with positive ids, their own profile reads back complete, with the body's values. */
  lemma UpdatedProfileIsComplete(users: seq<Usuario>, ps: seq<Perfil>, userId: int, newId: int, body: ProfileBody, now: Time)
    requires FindUsuario(users, userId).Some?
    requires newId > 0 && forall p | p in ps :: p.id > 0
    ensures var r := GetMyProfile(users, Upsert(ps, userId, newId, body, now), userId, false);
      r.Reply? && r.body.Complete? && r.body.row.fotoUrl == body.fotoUrl && r.body.row.bio == body.bio &&
      r.body.row.localizacao == body.localizacao && r.body.row.detalhes == Some(DetailsOrEmpty(body))
  {
    UpsertStoresBody(ps, userId, newId, body, now);
  }

  /**
   * `updateMyProfile`: the upsert, answered with the joined row; a store error
   * before the first write is 500 and changes nothing. The INSERT draws the
   * next `perfis` id; the UPDATE keeps the row's id.
   */
  method UpdateMyProfile(db: Database, userId: int, body: ProfileBody, now: Time, storeFails: bool)
    returns (r: Response<Option<ProfileRow>>)
    requires db.Valid()
    modifies db
    ensures db.Valid()
    ensures storeFails ==> r == Refusal(500, InternalError) && db.perfis == old(db.perfis) &&
                           db.nextPerfilId == old(db.nextPerfilId)
    ensures !storeFails ==>
              db.perfis == Upsert(old(db.perfis), userId, old(db.nextPerfilId), body, now) &&
              db.nextPerfilId == old(db.nextPerfilId) + (if FindPerfil(old(db.perfis), userId).None? then 1 else 0) &&
              r == Reply(200, JoinedProfile(db.usuarios, db.perfis, userId))
    ensures db.usuarios == old(db.usuarios) && db.publicacoes == old(db.publicacoes) && db.messages == old(db.messages)
    ensures db.conversations == old(db.conversations) && db.participants == old(db.participants)
    ensures db.nextUsuarioId == old(db.nextUsuarioId) && db.nextPublicacaoId == old(db.nextPublicacaoId)
    ensures db.nextConversationId == old(db.nextConversationId) && db.nextMessageId == old(db.nextMessageId)
  {
    if storeFails {
      return Refusal(500, InternalError);
    }
    var found := FindPerfil(db.perfis, userId);
    if found.None? {
      db.perfis := db.perfis + [Inserted(db.nextPerfilId, userId, body, now)];
      db.nextPerfilId := db.nextPerfilId + 1;
    } else {
      db.perfis := RewriteWhere(db.perfis, found.value.id, body, now);
    }
    r := Reply(200, JoinedProfile(db.usuarios, db.perfis, userId));
  }
}
