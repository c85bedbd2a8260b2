/**
 * The PostgreSQL tables behind the Node/Express back end, held in memory.
 * Each table is a sequence of rows in storage order; every `SERIAL` id column
 * has its own counter. Timestamps are whole numbers.
 */
module NodeDb {
  import opened Wrappers

  type Time = nat

  /** `perfis.detalhes` (JSONB): the string-valued keys that search reads. */
  type Details = map<string, string>

  /**
   * `usuarios`. The chat queries and the socket handshake read a column `nome`,
   * every other controller `nome_completo`; registration writes only
   * `nome_completo`, so `nome` is a nullable column of its own.
   */
  datatype Usuario = Usuario(id: int, nomeCompleto: string, nome: Option<string>, email: string, senhaHash: string, tipoPerfil: string)

  /**
   * The name the chat queries and the socket handshake read for a user, as
   * written: the `nome` column.
   */
  function ChatNameAsWritten(u: Usuario): Option<string> {
    u.nome
  }

  /** The name the chat evidently means: the full name that registration stores and every other query reads. */
  function ChatName(u: Usuario): (r: Option<string>)
    ensures r.Some?
  {
    Some(u.nomeCompleto)
  }

  /** `perfis`: every column but the id and the owner is nullable. */
  datatype Perfil = Perfil(
    id: int, usuarioId: int, fotoUrl: Option<string>, bio: Option<string>,
    localizacao: Option<string>, detalhes: Option<Details>, dataAtualizacao: Time)

  /** `publicacoes`. */
  datatype Publicacao = Publicacao(
    id: int, usuarioId: int, titulo: Option<string>, descricao: Option<string>,
    tipo: Option<string>, status: Option<string>, orcamento: Option<int>, prazo: Option<string>,
    tags: Option<seq<string>>, dataCriacao: Time, dataAtualizacao: Time)

  /** `conversations`. */
  datatype Conversation = Conversation(id: int, createdAt: Time)

  /** `conversation_participants`. */
  datatype Participant = Participant(conversationId: int, userId: int)

  /** `messages`. */
  datatype Message = Message(id: int, conversationId: int, senderId: int, content: string, createdAt: Time)

  /** Rows of `usuarios` with id `id`, in storage order (at most one while ids are fresh). */
  function FindUsuario(us: seq<Usuario>, id: int): (r: Option<Usuario>)
    ensures r.Some? ==> r.value in us && r.value.id == id
    ensures r.None? <==> forall u | u in us :: u.id != id
  {
    if us == [] then None
    else if us[0].id == id then Some(us[0])
    else FindUsuario(us[1..], id)
  }

  /** The first row of `usuarios` with this email (`WHERE email = $1`, `rows[0]`). */
  function FindUsuarioByEmail(us: seq<Usuario>, email: string): (r: Option<Usuario>)
    ensures r.Some? ==> r.value in us && r.value.email == email
    ensures r.None? <==> forall u | u in us :: u.email != email
  {
    if us == [] then None
    else if us[0].email == email then Some(us[0])
    else FindUsuarioByEmail(us[1..], email)
  }

  /** The first row of `perfis` owned by `usuarioId`. */
  function FindPerfil(ps: seq<Perfil>, usuarioId: int): (r: Option<Perfil>)
    ensures r.Some? ==> r.value in ps && r.value.usuarioId == usuarioId
    ensures r.None? <==> forall p | p in ps :: p.usuarioId != usuarioId
  {
    if ps == [] then None
    else if ps[0].usuarioId == usuarioId then Some(ps[0])
    else FindPerfil(ps[1..], usuarioId)
  }

  function FindPublicacao(ps: seq<Publicacao>, id: int): (r: Option<Publicacao>)
    ensures r.Some? ==> r.value in ps && r.value.id == id
    ensures r.None? <==> forall p | p in ps :: p.id != id
  {
    if ps == [] then None
    else if ps[0].id == id then Some(ps[0])
    else FindPublicacao(ps[1..], id)
  }

  function FindConversation(cs: seq<Conversation>, id: int): (r: Option<Conversation>)
    ensures r.Some? ==> r.value in cs && r.value.id == id
    ensures r.None? <==> forall c | c in cs :: c.id != id
  {
    if cs == [] then None
    else if cs[0].id == id then Some(cs[0])
    else FindConversation(cs[1..], id)
  }

  /** Every publication id is below the next value of its sequence. */
  ghost predicate PublicacaoIdsBelow(ps: seq<Publicacao>, bound: int) {
    forall p | p in ps :: p.id < bound
  }

  /** The database: one field per table, one counter per `SERIAL` sequence. */
  class Database {
    var usuarios: seq<Usuario>
    var perfis: seq<Perfil>
    var publicacoes: seq<Publicacao>
    var conversations: seq<Conversation>
    var participants: seq<Participant>
    var messages: seq<Message>
    var nextUsuarioId: int
    var nextPerfilId: int
    var nextPublicacaoId: int
    var nextConversationId: int
    var nextMessageId: int

    /** Every stored id was drawn from its sequence, so the next value is fresh. */
    ghost predicate Valid()
      reads this
    {
      && (forall u | u in usuarios :: u.id < nextUsuarioId)
      && (forall p | p in perfis :: p.id < nextPerfilId)
      && PublicacaoIdsBelow(publicacoes, nextPublicacaoId)
      && (forall c | c in conversations :: c.id < nextConversationId)
      && (forall m | m in messages :: m.id < nextMessageId)
    }

    constructor ()
      ensures Valid()
      ensures usuarios == [] && perfis == [] && publicacoes == []
      ensures conversations == [] && participants == [] && messages == []
      ensures nextUsuarioId == 1 && nextPerfilId == 1 && nextPublicacaoId == 1
      ensures nextConversationId == 1 && nextMessageId == 1
    {
      usuarios, perfis, publicacoes := [], [], [];
      conversations, participants, messages := [], [], [];
      nextUsuarioId, nextPerfilId, nextPublicacaoId := 1, 1, 1;
      nextConversationId, nextMessageId := 1, 1;
    }
  }
}
