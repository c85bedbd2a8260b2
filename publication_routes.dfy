/**
 * `controllers/publicationController.js`: the Node handlers for publications.
 * The caller's id is the `id` claim the token middleware attached; route ids
 * arrive as text and go through `parseInt(…, 10)`. A store error is the
 * `storeFails` parameter and answers 500.
 */
module PublicationRoutes {
  import opened Wrappers
  import opened Seqs
  import opened Text
  import opened Http
  import opened NodeDb

  /** The JSON body of create and update; `None` is an absent (undefined) field. */
  datatype PublicationBody = PublicationBody(
    titulo: Option<string>, descricao: Option<string>, tipo: Option<string>, status: Option<string>,
    orcamento: Option<int>, prazo: Option<string>, tags: Option<seq<string>>)

  /** A row of `listPublications`. */
  datatype ListRow = ListRow(id: int, titulo: Option<string>, tipo: Option<string>, status: Option<string>,
                             dataCriacao: Time, usuarioId: int, usuarioNome: string)

  /** A row of `getPublicationDetails`: the publication with its author's name. */
  datatype PublicationDetails = PublicationDetails(publicacao: Publicacao, usuarioNome: string)

  const TitleAndDescriptionRequired := "Título e descrição são obrigatórios."
  const InvalidId := "ID de publicação inválido"
  const NotFound := "Publicação não encontrada"
  const NotOwner := "Acesso negado. Você não é o proprietário desta publicação."
  const DefaultTipo := "Necessidade"
  const DefaultStatus := "Aberto"

  // ---------------------------------------------------------------------------
  // createPublication
  // ---------------------------------------------------------------------------

  /** The row the INSERT stores: the caller as author, `tipo`, `status` and `tags` defaulted, the rest as sent. */
  function NewPublication(id: int, userId: int, body: PublicationBody, now: Time): (p: Publicacao)
    ensures p.id == id && p.usuarioId == userId
    ensures p.titulo == body.titulo && p.descricao == body.descricao
    ensures p.tipo == Some(if Truthy(body.tipo) then body.tipo.value else DefaultTipo)
    ensures p.status == Some(if Truthy(body.status) then body.status.value else DefaultStatus)
    ensures p.tags == Some(if body.tags.Some? then body.tags.value else [])
    ensures p.orcamento == body.orcamento && p.prazo == body.prazo
    ensures p.dataCriacao == now && p.dataAtualizacao == now
  {
    Publicacao(id, userId, body.titulo, body.descricao,
      Some(OrDefault(body.tipo, DefaultTipo)), Some(OrDefault(body.status, DefaultStatus)),
      body.orcamento, body.prazo, Some(body.tags.GetOr([])), now, now)
  }

  /** `createPublication`: 400 without a title or a description, else one new row answered with 201. */
  method CreatePublication(db: Database, userId: int, body: PublicationBody, now: Time, storeFails: bool) returns (r: Response<Publicacao>)
    requires db.Valid()
    modifies db
    ensures db.Valid()
    ensures !Truthy(body.titulo) || !Truthy(body.descricao) ==>
              r == Refusal(400, TitleAndDescriptionRequired) && db.publicacoes == old(db.publicacoes)
    ensures Truthy(body.titulo) && Truthy(body.descricao) && storeFails ==>
              r == Refusal(500, InternalError) && db.publicacoes == old(db.publicacoes)
    ensures Truthy(body.titulo) && Truthy(body.descricao) && !storeFails ==>
              var p := NewPublication(old(db.nextPublicacaoId), userId, body, now);
              r == Reply(201, p) && db.publicacoes == old(db.publicacoes) + [p] &&
              db.nextPublicacaoId == old(db.nextPublicacaoId) + 1
    ensures r.Refusal? ==> db.nextPublicacaoId == old(db.nextPublicacaoId)
    ensures db.usuarios == old(db.usuarios) && db.perfis == old(db.perfis) && db.messages == old(db.messages)
    ensures db.conversations == old(db.conversations) && db.participants == old(db.participants)
    ensures db.nextUsuarioId == old(db.nextUsuarioId) && db.nextPerfilId == old(db.nextPerfilId)
    ensures db.nextConversationId == old(db.nextConversationId) && db.nextMessageId == old(db.nextMessageId)
  {
    if !Truthy(body.titulo) || !Truthy(body.descricao) {
      return Refusal(400, TitleAndDescriptionRequired);
    }
    if storeFails {
      return Refusal(500, InternalError);
    }
    var p := NewPublication(db.nextPublicacaoId, userId, body, now);
    db.publicacoes := db.publicacoes + [p];
    db.nextPublicacaoId := db.nextPublicacaoId + 1;
    r := Reply(201, p);
  }

  // ---------------------------------------------------------------------------
  // listPublications and getPublicationDetails
  // ---------------------------------------------------------------------------

  function CreatedAt(row: ListRow): int {
    row.dataCriacao
  }

  function ListRowOf(p: Publicacao, author: Usuario): ListRow {
    ListRow(p.id, p.titulo, p.tipo, p.status, p.dataCriacao, p.usuarioId, author.nomeCompleto)
  }

  /** Whether the publication's author row exists, the condition of the inner join. */
  function HasAuthor(users: seq<Usuario>): Publicacao -> bool {
    (p: Publicacao) => FindUsuario(users, p.usuarioId).Some?
  }

  /** `publicacoes p JOIN usuarios u ON p.usuario_id = u.id`, projected: one row per publication with an author. */
  function ListRows(ps: seq<Publicacao>, users: seq<Usuario>): (r: seq<ListRow>)
    ensures forall row | row in r :: (exists p | p in ps && FindUsuario(users, p.usuarioId).Some? ::
              row == ListRowOf(p, FindUsuario(users, p.usuarioId).value))
    ensures forall p | p in ps && FindUsuario(users, p.usuarioId).Some? ::
              ListRowOf(p, FindUsuario(users, p.usuarioId).value) in r
    ensures |r| == Count(ps, HasAuthor(users))
  {
    if ps == [] then []
    else
      var rest := ListRows(ps[1..], users);
      assert forall p | p in ps :: p == ps[0] || p in ps[1..];
      var author := FindUsuario(users, ps[0].usuarioId);
      assert HasAuthor(users)(ps[0]) == author.Some?;
      if author.Some? then [ListRowOf(ps[0], author.value)] + rest else rest
  }

  /** `listPublications`: every publication whose author exists, newest first; 500 when the query throws. */
  function ListPublications(ps: seq<Publicacao>, users: seq<Usuario>, storeFails: bool): (r: Response<seq<ListRow>>)
    ensures r == Refusal(500, InternalError) <==> storeFails
    ensures !storeFails ==> r.Reply? && r.status == 200
    ensures r.Reply? ==> SortedDescBy(r.body, CreatedAt) && multiset(r.body) == multiset(ListRows(ps, users))
  {
    if storeFails then Refusal(500, InternalError)
    else Reply(200, SortDescBy(ListRows(ps, users), CreatedAt))
  }

  /** A publication is listed exactly when its author's row exists. */
  lemma ListedIffAuthorExists(ps: seq<Publicacao>, users: seq<Usuario>, p: Publicacao)
    requires p in ps
    ensures (exists row | row in ListPublications(ps, users, false).body :: row.id == p.id && row.usuarioId == p.usuarioId)
        <== FindUsuario(users, p.usuarioId).Some?
    ensures (exists row | row in ListPublications(ps, users, false).body :: row.id == p.id)
        ==> exists q | q in ps :: q.id == p.id && FindUsuario(users, q.usuarioId).Some?
  {
    var rows := ListRows(ps, users);
    SameMembers(ListPublications(ps, users, false).body, rows);
    if FindUsuario(users, p.usuarioId).Some? {
      assert ListRowOf(p, FindUsuario(users, p.usuarioId).value) in rows;
    }
  }

  /** The route parameter as `parseInt` reads it: `None` is NaN. */
  function RouteId(param: string): Option<int> {
    ParseInt(param)
  }

  /**
   * `getPublicationDetails`: 400 for a non-numeric id, 500 when the query
   * throws, 404 for no row (or no author), else the row.
   */
  function GetPublicationDetails(ps: seq<Publicacao>, users: seq<Usuario>, param: string, storeFails: bool): (r: Response<PublicationDetails>)
    ensures RouteId(param).None? <==> r == Refusal(400, InvalidId)
    ensures RouteId(param).Some? && storeFails <==> r == Refusal(500, InternalError)
    ensures RouteId(param).Some? && !storeFails ==>
              (r.Reply? <==> FindJoined(ps, users, RouteId(param).value).Some?) &&
              (r.Refusal? ==> r == Refusal(404, NotFound))
    ensures RouteId(param).Some? && !storeFails && FindPublicacao(ps, RouteId(param).value).None? ==> r == Refusal(404, NotFound)
    ensures r.Reply? ==> (r.status == 200 && r.body.publicacao in ps && Some(r.body.publicacao.id) == RouteId(param) &&
              FindUsuario(users, r.body.publicacao.usuarioId).Some? &&
              r.body.usuarioNome == FindUsuario(users, r.body.publicacao.usuarioId).value.nomeCompleto)
  {
    var id := RouteId(param);
    if id.None? then Refusal(400, InvalidId)
    else if storeFails then Refusal(500, InternalError)
    else
      var row := FindJoined(ps, users, id.value);
      if row.None? then Refusal(404, NotFound) else Reply(200, row.value)
  }

  /** The first publication with this id whose author exists, joined with the author's name. */
  function FindJoined(ps: seq<Publicacao>, users: seq<Usuario>, id: int): (r: Option<PublicationDetails>)
    ensures r.Some? ==> (r.value.publicacao in ps && r.value.publicacao.id == id &&
              FindUsuario(users, r.value.publicacao.usuarioId).Some? &&
              r.value.usuarioNome == FindUsuario(users, r.value.publicacao.usuarioId).value.nomeCompleto)
    ensures r.None? <==> forall p | p in ps && p.id == id :: FindUsuario(users, p.usuarioId).None?
  {
    if ps == [] then None
    else if ps[0].id == id && FindUsuario(users, ps[0].usuarioId).Some? then
      Some(PublicationDetails(ps[0], FindUsuario(users, ps[0].usuarioId).value.nomeCompleto))
    else FindJoined(ps[1..], users, id)
  }

  // ---------------------------------------------------------------------------
  // updatePublication and deletePublication
  // ---------------------------------------------------------------------------

  /**
   * The checks shared by update and delete, in their order: a non-numeric id is
   * 400, a missing row 404, another owner 403; the owner gets the id back.
   */
  function OwnedTarget(ps: seq<Publicacao>, userId: int, param: string): (r: Result<int, Response<Publicacao>>)
    ensures r.Failure? ==> r.error.Refusal?
    ensures RouteId(param).None? <==> r == Failure(Refusal(400, InvalidId))
    ensures r == Failure(Refusal(404, NotFound)) <==> RouteId(param).Some? && FindPublicacao(ps, RouteId(param).value).None?
    ensures r == Failure(Refusal(403, NotOwner)) <==>
              RouteId(param).Some? && FindPublicacao(ps, RouteId(param).value).Some? &&
              FindPublicacao(ps, RouteId(param).value).value.usuarioId != userId
    ensures r.Success? <==>
              RouteId(param).Some? && FindPublicacao(ps, RouteId(param).value).Some? &&
              FindPublicacao(ps, RouteId(param).value).value.usuarioId == userId
    ensures r.Success? ==> Some(r.value) == RouteId(param)
  {
    var id := RouteId(param);
    if id.None? then Failure(Refusal(400, InvalidId))
    else
      var found := FindPublicacao(ps, id.value);
      if found.None? then Failure(Refusal(404, NotFound))
      else if found.value.usuarioId != userId then Failure(Refusal(403, NotOwner))
      else Success(id.value)
  }

  /** A missing publication is reported as missing, never as forbidden, whoever asks. */
  lemma MissingIsNotForbidden(ps: seq<Publicacao>, userId: int, other: int, param: string)
    requires OwnedTarget(ps, userId, param) == Failure(Refusal(404, NotFound))
    ensures OwnedTarget(ps, other, param) == Failure(Refusal(404, NotFound))
  {
  }

  /** The row after the UPDATE: every content field takes the body's value, with no default; id, owner and creation time stay. */
  function Updated(p: Publicacao, body: PublicationBody, now: Time): (q: Publicacao)
    ensures q.id == p.id && q.usuarioId == p.usuarioId && q.dataCriacao == p.dataCriacao
    ensures q.titulo == body.titulo && q.descricao == body.descricao && q.tipo == body.tipo && q.status == body.status
    ensures q.orcamento == body.orcamento && q.prazo == body.prazo && q.tags == body.tags
    ensures q.dataAtualizacao == now
  {
    p.(titulo := body.titulo, descricao := body.descricao, tipo := body.tipo, status := body.status,
       orcamento := body.orcamento, prazo := body.prazo, tags := body.tags, dataAtualizacao := now)
  }

  /** `UPDATE … WHERE id = $8`: every row with that id is rewritten, the others are kept. */
  function UpdateWhere(ps: seq<Publicacao>, id: int, body: PublicationBody, now: Time): (r: seq<Publicacao>)
    ensures |r| == |ps|
    ensures forall k | 0 <= k < |ps| :: r[k] == if ps[k].id == id then Updated(ps[k], body, now) else ps[k]
  {
    if ps == [] then []
    else [if ps[0].id == id then Updated(ps[0], body, now) else ps[0]] + UpdateWhere(ps[1..], id, body, now)
  }

  /** Rewriting rows keeps their ids, so a bound on the ids still holds. */
  lemma UpdateWhereKeepsIdsBelow(ps: seq<Publicacao>, id: int, body: PublicationBody, now: Time, bound: int)
    requires PublicacaoIdsBelow(ps, bound)
    ensures PublicacaoIdsBelow(UpdateWhere(ps, id, body, now), bound)
  {
    var r := UpdateWhere(ps, id, body, now);
    forall p | p in r ensures p.id < bound {
      var k :| 0 <= k < |r| && r[k] == p;
      assert ps[k] in ps;
    }
  }

  /** `DELETE … WHERE id = $1`: the rows with that id go, the others stay in order. */
  function DeleteWhere(ps: seq<Publicacao>, id: int): (r: seq<Publicacao>)
    ensures forall p | p in r :: p in ps && p.id != id
    ensures forall p | p in ps && p.id != id :: p in r
    ensures |r| <= |ps|
  {
    Filter(ps, (p: Publicacao) => p.id != id)
  }

  /** Deleting exactly removes every copy of each row with that id and keeps every other row as often as it was. */
  lemma DeleteWhereCounts(ps: seq<Publicacao>, id: int, p: Publicacao)
    ensures multiset(DeleteWhere(ps, id))[p] == if p.id == id then 0 else multiset(ps)[p]
  {
    FilterMultiset(ps, (q: Publicacao) => q.id != id, p);
  }

  /**
   * `updatePublication`: only the owner rewrites the row; everybody else gets
   * 400, 404 or 403 and changes nothing. `checkFails` is the ownership SELECT
   * throwing (500 once the id parses), `storeFails` the UPDATE throwing.
   */
  method UpdatePublication(db: Database, userId: int, param: string, body: PublicationBody, now: Time,
                           checkFails: bool, storeFails: bool)
    returns (r: Response<Publicacao>)
    requires db.Valid()
    modifies db
    ensures db.Valid()
    ensures RouteId(param).Some? && checkFails ==> r == Refusal(500, InternalError) && db.publicacoes == old(db.publicacoes)
    ensures OwnedTarget(old(db.publicacoes), userId, param).Failure? && (RouteId(param).None? || !checkFails) ==>
              r == OwnedTarget(old(db.publicacoes), userId, param).error && db.publicacoes == old(db.publicacoes)
    ensures OwnedTarget(old(db.publicacoes), userId, param).Success? && !checkFails && storeFails ==>
              r == Refusal(500, InternalError) && db.publicacoes == old(db.publicacoes)
    ensures var t := OwnedTarget(old(db.publicacoes), userId, param);
      t.Success? && !checkFails && !storeFails ==>
         db.publicacoes == UpdateWhere(old(db.publicacoes), t.value, body, now) &&
         r == Reply(200, Updated(FindPublicacao(old(db.publicacoes), t.value).value, body, now))
    ensures db.nextPublicacaoId == old(db.nextPublicacaoId) && db.usuarios == old(db.usuarios) && db.perfis == old(db.perfis)
    ensures db.messages == old(db.messages) && db.conversations == old(db.conversations) && db.participants == old(db.participants)
    ensures db.nextUsuarioId == old(db.nextUsuarioId) && db.nextPerfilId == old(db.nextPerfilId)
    ensures db.nextConversationId == old(db.nextConversationId) && db.nextMessageId == old(db.nextMessageId)
  {
    if RouteId(param).Some? && checkFails {
      return Refusal(500, InternalError);
    }
    var t := OwnedTarget(db.publicacoes, userId, param);
    if t.Failure? {
      return t.error;
    }
    if storeFails {
      return Refusal(500, InternalError);
    }
    var ps := db.publicacoes;
    var before := FindPublicacao(ps, t.value).value;
    UpdateWhereKeepsIdsBelow(ps, t.value, body, now, db.nextPublicacaoId);
    db.publicacoes := UpdateWhere(ps, t.value, body, now);
    assert PublicacaoIdsBelow(db.publicacoes, db.nextPublicacaoId);
    r := Reply(200, Updated(before, body, now));
  }

  /**
   * `deletePublication`: the owner removes the row and gets 204; everybody else
   * gets 400, 404 or 403 and changes nothing. `checkFails` is the ownership
   * SELECT throwing (500 once the id parses), `storeFails` the DELETE throwing.
   */
  method DeletePublication(db: Database, userId: int, param: string, checkFails: bool, storeFails: bool) returns (r: Response<()>)
    requires db.Valid()
    modifies db
    ensures db.Valid()
    ensures RouteId(param).Some? && checkFails ==> r == Refusal(500, InternalError) && db.publicacoes == old(db.publicacoes)
    ensures var t := OwnedTarget(old(db.publicacoes), userId, param);
      (t.Failure? && (RouteId(param).None? || !checkFails) ==>
         r == Refusal(t.error.status, t.error.message) && db.publicacoes == old(db.publicacoes)) &&
      (t.Success? && !checkFails && storeFails ==> r == Refusal(500, InternalError) && db.publicacoes == old(db.publicacoes)) &&
      (t.Success? && !checkFails && !storeFails ==> r == Reply(204, ()) && db.publicacoes == DeleteWhere(old(db.publicacoes), t.value))
    ensures db.nextPublicacaoId == old(db.nextPublicacaoId) && db.usuarios == old(db.usuarios) && db.perfis == old(db.perfis)
    ensures db.messages == old(db.messages) && db.conversations == old(db.conversations) && db.participants == old(db.participants)
    ensures db.nextUsuarioId == old(db.nextUsuarioId) && db.nextPerfilId == old(db.nextPerfilId)
    ensures db.nextConversationId == old(db.nextConversationId) && db.nextMessageId == old(db.nextMessageId)
  {
    if RouteId(param).Some? && checkFails {
      return Refusal(500, InternalError);
    }
    var t := OwnedTarget(db.publicacoes, userId, param);
    if t.Failure? {
      return Refusal(t.error.status, t.error.message);
    }
    if storeFails {
      return Refusal(500, InternalError);
    }
    db.publicacoes := DeleteWhere(db.publicacoes, t.value);
    r := Reply(204, ());
  }
}
