/**
 * `controllers/searchController.js`: the Node search over users and
 * publications. PostgreSQL's `ILIKE` is the parameter `ilike` (a text against
 * a pattern); a NULL column never matches. Both queries stop at 20 rows.
 */
module SearchRoutes {
  import opened Wrappers
  import opened Seqs
  import opened Text
  import opened Http
  import opened NodeDb

  const SearchTermRequired := "Termo de busca é obrigatório."

  /** `LIMIT 20`. */
  const MaxResults: nat := 20

  /** `LEFT(p.descricao, 150)`. */
  const ShortDescriptionLength: nat := 150

  /** The `detalhes` keys the user search looks into. */
  const DetailKeys := ["habilidades", "area_atuacao", "segmento"]

  /** A row of the user search. */
  datatype UserRow = UserRow(id: int, nomeCompleto: string, tipoPerfil: string,
                             fotoUrl: Option<string>, bio: Option<string>, localizacao: Option<string>)

  /** A row of the publication search. */
  datatype PublicationRow = PublicationRow(
    id: int, titulo: Option<string>, tipo: Option<string>, status: Option<string>, dataCriacao: Time,
    usuarioId: int, usuarioNome: string, descricaoCurta: Option<string>)

  /** `{ users, publications }`. */
  datatype SearchResults = SearchResults(users: seq<UserRow>, publications: seq<PublicationRow>)

  /** A row of `usuarios u LEFT JOIN perfis p`. */
  datatype UserCandidate = UserCandidate(user: Usuario, perfil: Option<Perfil>)

  /** A row of `publicacoes p JOIN usuarios u`. */
  datatype PublicationCandidate = PublicationCandidate(pub: Publicacao, author: Usuario)

  /** `col ILIKE pattern`, where a NULL column is not a match. */
  predicate Like(ilike: (string, string) -> bool, col: Option<string>, pattern: string) {
    col.Some? && ilike(col.value, pattern)
  }

  /** `%${q.trim()}%`: the trimmed term between two wildcards, so it matches anywhere in a column. */
  function Pattern(q: string): (r: string)
    ensures |r| == |Trim(q)| + 2 && r[0] == '%' && r[|r| - 1] == '%'
    ensures r[1..|r| - 1] == Trim(q)
  {
    "%" + Trim(q) + "%"
  }

  /** The search term is usable: present, and not only white space. */
  predicate HasTerm(q: Option<string>) {
    q.Some? && Trim(q.value) != ""
  }

  /** `!type || type === 'users'`. */
  predicate SearchesUsers(kind: Option<string>) {
    !Truthy(kind) || kind.value == "users"
  }

  /** `!type || type === 'publications'`. */
  predicate SearchesPublications(kind: Option<string>) {
    !Truthy(kind) || kind.value == "publications"
  }

  // ---------------------------------------------------------------------------
  // Users
  // ---------------------------------------------------------------------------

  /** The profiles of one user, each joined with that user, or the user alone with NULL profile columns. */
  function UserCandidates(u: Usuario, perfis: seq<Perfil>): (r: seq<UserCandidate>)
    ensures forall c | c in r :: c.user == u
    ensures forall c | c in r && c.perfil.Some? :: c.perfil.value in perfis && c.perfil.value.usuarioId == u.id
    ensures forall c | c in r && c.perfil.None? :: forall p | p in perfis :: p.usuarioId != u.id
    ensures forall p | p in perfis && p.usuarioId == u.id :: UserCandidate(u, Some(p)) in r
    ensures (forall p | p in perfis :: p.usuarioId != u.id) ==> r == [UserCandidate(u, None)]
  {
    var own := Filter(perfis, (p: Perfil) => p.usuarioId == u.id);
    if own == [] then
      assert forall p | p in perfis :: p.usuarioId != u.id by {
        forall p | p in perfis ensures p.usuarioId != u.id {
          var i :| 0 <= i < |perfis| && perfis[i] == p;
        }
      }
      [UserCandidate(u, None)]
    else
      var r := seq(|own|, k requires 0 <= k < |own| => UserCandidate(u, Some(own[k])));
      assert own[0] in own;
      assert forall c | c in r :: c.perfil.Some? && c.perfil.value in own by {
        forall c | c in r ensures c.perfil.Some? && c.perfil.value in own {
          var k :| 0 <= k < |r| && r[k] == c;
        }
      }
      assert forall p | p in perfis && p.usuarioId == u.id :: UserCandidate(u, Some(p)) in r by {
        forall p | p in perfis && p.usuarioId == u.id ensures UserCandidate(u, Some(p)) in r {
          var i :| 0 <= i < |perfis| && perfis[i] == p;
          var k :| 0 <= k < |own| && own[k] == p;
          assert r[k] == UserCandidate(u, Some(p));
        }
      }
      r
  }

  /** `usuarios u LEFT JOIN perfis p ON u.id = p.usuario_id`, user by user. */
  function UserJoin(users: seq<Usuario>, perfis: seq<Perfil>): (r: seq<UserCandidate>)
    ensures forall c | c in r :: c.user in users && c in UserCandidates(c.user, perfis)
    ensures forall u, c | u in users && c in UserCandidates(u, perfis) :: c in r
  {
    if users == [] then []
    else
      var rest := UserJoin(users[1..], perfis);
      assert forall u | u in users :: u == users[0] || u in users[1..];
      UserCandidates(users[0], perfis) + rest
  }

  /** The value of `detalhes ->> key`, NULL without a profile, without details, or without that key. */
  function Detail(c: UserCandidate, key: string): Option<string> {
    if c.perfil.Some? && c.perfil.value.detalhes.Some? && key in c.perfil.value.detalhes.value
    then Some(c.perfil.value.detalhes.value[key]) else None
  }

  /** The user query's WHERE clause. */
  predicate UserMatches(ilike: (string, string) -> bool, pattern: string, c: UserCandidate) {
    || Like(ilike, Some(c.user.nomeCompleto), pattern)
    || (c.perfil.Some? && (Like(ilike, c.perfil.value.bio, pattern) || Like(ilike, c.perfil.value.localizacao, pattern)))
    || Like(ilike, Detail(c, DetailKeys[0]), pattern)
    || Like(ilike, Detail(c, DetailKeys[1]), pattern)
    || Like(ilike, Detail(c, DetailKeys[2]), pattern)
  }

  function UserRowOf(c: UserCandidate): UserRow {
    if c.perfil.None? then UserRow(c.user.id, c.user.nomeCompleto, c.user.tipoPerfil, None, None, None)
    else UserRow(c.user.id, c.user.nomeCompleto, c.user.tipoPerfil, c.perfil.value.fotoUrl, c.perfil.value.bio, c.perfil.value.localizacao)
  }

  /** The matching joined rows, in join order. */
  function MatchingUsers(users: seq<Usuario>, perfis: seq<Perfil>, ilike: (string, string) -> bool, pattern: string): seq<UserCandidate> {
    Filter(UserJoin(users, perfis), c => UserMatches(ilike, pattern, c))
  }

  /**
   * The user query: as many rows as match, up to 20, each the projection of a
   * matching joined row; when no more than 20 rows match, all of them.
   */
  function UserResults(users: seq<Usuario>, perfis: seq<Perfil>, ilike: (string, string) -> bool, pattern: string)
    : (r: seq<UserRow>)
    ensures |r| <= MaxResults
    ensures var n := |MatchingUsers(users, perfis, ilike, pattern)|; |r| == if n < MaxResults then n else MaxResults
    ensures forall row | row in r :: exists c | c in MatchingUsers(users, perfis, ilike, pattern) :: row == UserRowOf(c)
    ensures |MatchingUsers(users, perfis, ilike, pattern)| <= MaxResults ==>
              forall c | c in MatchingUsers(users, perfis, ilike, pattern) :: UserRowOf(c) in r
  {
    var matching := MatchingUsers(users, perfis, ilike, pattern);
    PagedUserRows(matching);
    UserRowsOf(Page(matching, MaxResults, 0))
  }

  function UserRowsOf(cs: seq<UserCandidate>): (r: seq<UserRow>)
    ensures |r| == |cs| && forall k | 0 <= k < |cs| :: r[k] == UserRowOf(cs[k])
  {
    seq(|cs|, k requires 0 <= k < |cs| => UserRowOf(cs[k]))
  }

  /** The rows of the first page come from the candidates, and cover them all when they fit on the page. */
  lemma PagedUserRows(matching: seq<UserCandidate>)
    ensures var r := UserRowsOf(Page(matching, MaxResults, 0));
      |r| == (if |matching| < MaxResults then |matching| else MaxResults) &&
      (forall row | row in r :: exists c | c in matching :: row == UserRowOf(c)) &&
      (|matching| <= MaxResults ==> forall c | c in matching :: UserRowOf(c) in r)
  {
    var kept := Page(matching, MaxResults, 0);
    var r := UserRowsOf(kept);
    forall row | row in r ensures exists c | c in matching :: row == UserRowOf(c) {
      var k :| 0 <= k < |r| && r[k] == row;
      assert kept[k] == matching[k];
    }
    if |matching| <= MaxResults {
      forall c | c in matching ensures UserRowOf(c) in r {
        var k :| 0 <= k < |matching| && matching[k] == c;
        assert r[k] == UserRowOf(c);
      }
    }
  }

  /** A user found on their name is in the candidate list with every one of their profiles (or with none). */
  lemma NameMatchIsCandidate(users: seq<Usuario>, perfis: seq<Perfil>, ilike: (string, string) -> bool, pattern: string, u: Usuario)
    requires u in users && ilike(u.nomeCompleto, pattern)
    ensures (forall p | p in perfis :: p.usuarioId != u.id) ==>
              UserCandidate(u, None) in MatchingUsers(users, perfis, ilike, pattern)
    ensures forall p | p in perfis && p.usuarioId == u.id :: UserCandidate(u, Some(p)) in MatchingUsers(users, perfis, ilike, pattern)
  {
    var join := UserJoin(users, perfis);
    forall c | c in UserCandidates(u, perfis) ensures c in MatchingUsers(users, perfis, ilike, pattern) {
      assert c in join;
      var i :| 0 <= i < |join| && join[i] == c;
      assert UserMatches(ilike, pattern, join[i]);
    }
  }

  // ---------------------------------------------------------------------------
  // Publications
  // ---------------------------------------------------------------------------

  /** `publicacoes p JOIN usuarios u ON p.usuario_id = u.id`. */
  function PublicationJoin(ps: seq<Publicacao>, users: seq<Usuario>): (r: seq<PublicationCandidate>)
    ensures forall c | c in r :: c.pub in ps && FindUsuario(users, c.pub.usuarioId) == Some(c.author)
    ensures forall p | p in ps && FindUsuario(users, p.usuarioId).Some? ::
              PublicationCandidate(p, FindUsuario(users, p.usuarioId).value) in r
  {
    if ps == [] then []
    else
      var rest := PublicationJoin(ps[1..], users);
      assert forall p | p in ps :: p == ps[0] || p in ps[1..];
      var author := FindUsuario(users, ps[0].usuarioId);
      if author.Some? then [PublicationCandidate(ps[0], author.value)] + rest else rest
  }

  /** The publication query's WHERE clause: title, description, or any tag. */
  predicate PublicationMatches(ilike: (string, string) -> bool, pattern: string, c: PublicationCandidate) {
    || Like(ilike, c.pub.titulo, pattern)
    || Like(ilike, c.pub.descricao, pattern)
    || (c.pub.tags.Some? && exists k | 0 <= k < |c.pub.tags.value| :: ilike(c.pub.tags.value[k], pattern))
  }

  function CandidateTime(c: PublicationCandidate): int {
    c.pub.dataCriacao
  }

  function RowTime(row: PublicationRow): int {
    row.dataCriacao
  }

  /** The projection; the description is cut to its first 150 characters, and NULL stays NULL. */
  function PublicationRowOf(c: PublicationCandidate): (row: PublicationRow)
    ensures row.dataCriacao == c.pub.dataCriacao && row.id == c.pub.id && row.usuarioId == c.author.id
    ensures c.pub.descricao.None? ==> row.descricaoCurta.None?
    ensures c.pub.descricao.Some? ==> row.descricaoCurta == Some(Left(c.pub.descricao.value, ShortDescriptionLength))
  {
    PublicationRow(c.pub.id, c.pub.titulo, c.pub.tipo, c.pub.status, c.pub.dataCriacao, c.author.id, c.author.nomeCompleto,
      if c.pub.descricao.Some? then Some(Left(c.pub.descricao.value, ShortDescriptionLength)) else None)
  }

  function PublicationMatcher(ilike: (string, string) -> bool, pattern: string): PublicationCandidate -> bool {
    c => PublicationMatches(ilike, pattern, c)
  }

  /** The matching joined rows, newest first: one per matching row of the join. */
  function NewestMatches(ps: seq<Publicacao>, users: seq<Usuario>, ilike: (string, string) -> bool, pattern: string)
    : (r: seq<PublicationCandidate>)
    ensures SortedDescBy(r, CandidateTime)
    ensures forall c :: c in r <==> c in PublicationJoin(ps, users) && PublicationMatches(ilike, pattern, c)
    ensures |r| == Count(PublicationJoin(ps, users), PublicationMatcher(ilike, pattern))
  {
    var matching := Filter(PublicationJoin(ps, users), PublicationMatcher(ilike, pattern));
    CountIsFilterSize(PublicationJoin(ps, users), PublicationMatcher(ilike, pattern));
    var r := SortDescBy(matching, CandidateTime);
    SameMembers(r, matching);
    assert forall c | c in PublicationJoin(ps, users) && PublicationMatches(ilike, pattern, c) :: c in matching by {
      forall c | c in PublicationJoin(ps, users) && PublicationMatches(ilike, pattern, c) ensures c in matching {
        var join := PublicationJoin(ps, users);
        var i :| 0 <= i < |join| && join[i] == c;
      }
    }
    r
  }

  /**
   * The publication query: as many rows as match, up to 20, newest first,
   * each the projection of a matching publication with its author; a
   * matching publication left out is no newer than any row returned.
   */
  function PublicationResults(ps: seq<Publicacao>, users: seq<Usuario>, ilike: (string, string) -> bool, pattern: string)
    : (r: seq<PublicationRow>)
    ensures |r| <= MaxResults
    ensures var n := |NewestMatches(ps, users, ilike, pattern)|; |r| == if n < MaxResults then n else MaxResults
    ensures SortedDescBy(r, RowTime)
    ensures forall row | row in r :: exists c | c in NewestMatches(ps, users, ilike, pattern) :: row == PublicationRowOf(c)
  {
    var newest := NewestMatches(ps, users, ilike, pattern);
    var kept := Page(newest, MaxResults, 0);
    var r := seq(|kept|, k requires 0 <= k < |kept| => PublicationRowOf(kept[k]));
    ProjectionKeepsOrder(newest, kept, r);
    r
  }

  lemma ProjectionKeepsOrder(newest: seq<PublicationCandidate>, kept: seq<PublicationCandidate>, r: seq<PublicationRow>)
    requires SortedDescBy(newest, CandidateTime) && kept == Page(newest, MaxResults, 0)
    requires |r| == |kept| && forall k | 0 <= k < |r| :: r[k] == PublicationRowOf(kept[k])
    ensures SortedDescBy(r, RowTime)
    ensures forall row | row in r :: exists c | c in newest :: row == PublicationRowOf(c)
  {
    forall i, j | 0 <= i < j < |r| ensures RowTime(r[i]) >= RowTime(r[j]) {
      assert kept[i] == newest[i] && kept[j] == newest[j];
    }
    forall row | row in r ensures exists c | c in newest :: row == PublicationRowOf(c) {
      var k :| 0 <= k < |r| && r[k] == row;
      assert kept[k] == newest[k];
    }
  }

  /** The rows returned are the projections of the first page of the newest matches, in that order. */
  lemma ResultsAreTheFirstPage(ps: seq<Publicacao>, users: seq<Usuario>, ilike: (string, string) -> bool, pattern: string)
    ensures var kept := Page(NewestMatches(ps, users, ilike, pattern), MaxResults, 0);
      var r := PublicationResults(ps, users, ilike, pattern);
      |r| == |kept| && forall k | 0 <= k < |r| :: r[k] == PublicationRowOf(kept[k])
  {
  }

  /**
   * Every matching publication whose author exists is returned, or the page is
   * full and it is no newer than every publication returned.
   */
  lemma PublicationResultsAreTheNewest(
    ps: seq<Publicacao>, users: seq<Usuario>, ilike: (string, string) -> bool, pattern: string, p: Publicacao)
    requires p in ps && FindUsuario(users, p.usuarioId).Some?
    requires PublicationMatches(ilike, pattern, PublicationCandidate(p, FindUsuario(users, p.usuarioId).value))
    ensures var row := PublicationRowOf(PublicationCandidate(p, FindUsuario(users, p.usuarioId).value));
      var r := PublicationResults(ps, users, ilike, pattern);
      row in r || (|r| == MaxResults && forall other | other in r :: p.dataCriacao <= other.dataCriacao)
  {
    var c := PublicationCandidate(p, FindUsuario(users, p.usuarioId).value);
    var newest := NewestMatches(ps, users, ilike, pattern);
    var kept := Page(newest, MaxResults, 0);
    var r := PublicationResults(ps, users, ilike, pattern);
    ResultsAreTheFirstPage(ps, users, ilike, pattern);
    assert c in newest;
    var i :| 0 <= i < |newest| && newest[i] == c;
    if i < |kept| {
      assert kept[i] == c;
      assert r[i] == PublicationRowOf(c);
    } else {
      PageOfSortedIsTop(newest, CandidateTime, MaxResults, c);
      forall other | other in r ensures p.dataCriacao <= other.dataCriacao {
        var k :| 0 <= k < |r| && r[k] == other;
        assert kept[k] in kept;
      }
    }
  }

  // ---------------------------------------------------------------------------
  // performSearch
  // ---------------------------------------------------------------------------

  /**
   * `performSearch`: 400 without a usable term; else each side searched or
   * left empty according to `type`, both with the trimmed term wrapped in `%`.
   */
  function PerformSearch(users: seq<Usuario>, perfis: seq<Perfil>, ps: seq<Publicacao>,
                         q: Option<string>, kind: Option<string>, ilike: (string, string) -> bool, storeFails: bool)
    : (r: Response<SearchResults>)
    ensures r == Refusal(400, SearchTermRequired) <==> !HasTerm(q)
    ensures r == Refusal(500, InternalError) <==> HasTerm(q) && storeFails
    ensures r.Reply? ==> (r.status == 200 &&
              r.body.users == (if SearchesUsers(kind) then UserResults(users, perfis, ilike, Pattern(q.value)) else []) &&
              r.body.publications ==
                (if SearchesPublications(kind) then PublicationResults(ps, users, ilike, Pattern(q.value)) else []))
  {
    if q.None? || Trim(q.value) == "" then Refusal(400, SearchTermRequired)
    else if storeFails then Refusal(500, InternalError)
    else
      var pattern := Pattern(q.value);
      Reply(200, SearchResults(
        if SearchesUsers(kind) then UserResults(users, perfis, ilike, pattern) else [],
        if SearchesPublications(kind) then PublicationResults(ps, users, ilike, pattern) else []))
  }

  /** A blank term, spaces only, is refused like an absent one. */
  lemma BlankTermIsRefused(users: seq<Usuario>, perfis: seq<Perfil>, ps: seq<Publicacao>, q: string,
                           kind: Option<string>, ilike: (string, string) -> bool)
    requires IsBlank(q)
    ensures PerformSearch(users, perfis, ps, Some(q), kind, ilike, false) == Refusal(400, SearchTermRequired)
  {
  }

  /** `type` values other than 'users' and 'publications' (when given) search nothing: both lists come back empty. */
  lemma UnknownTypeSearchesNothing(users: seq<Usuario>, perfis: seq<Perfil>, ps: seq<Publicacao>, q: string,
                                   kind: string, ilike: (string, string) -> bool)
    requires Trim(q) != "" && kind != "" && kind != "users" && kind != "publications"
    ensures PerformSearch(users, perfis, ps, Some(q), Some(kind), ilike, false) == Reply(200, SearchResults([], []))
  {
  }
}
