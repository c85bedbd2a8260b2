/**
 * `controllers/authController.js`: registration and login on the Node back
 * end. `bcrypt.hash` and `bcrypt.compare` are the parameters `hash` and
 * `compare`; token signing is a `Signer`.
 */
module AuthRoutes {
  import opened Wrappers
  import opened Text
  import opened Http
  import opened NodeDb
  import opened Jwt

  /** `SALT_ROUNDS`. */
  const SaltRounds: nat := 10

  const AllFieldsRequired := "Todos os campos são obrigatórios."
  const InvalidProfileType := "Tipo de perfil inválido."
  const EmailTaken := "Email já cadastrado."
  const Registered := "Usuário cadastrado com sucesso!"
  const RegisterFailed := "Erro interno do servidor ao registrar usuário."
  const CredentialsRequired := "Email e senha são obrigatórios."
  const InvalidCredentials := "Credenciais inválidas."
  const LoggedIn := "Login bem-sucedido!"
  const LoginFailed := "Erro interno do servidor ao fazer login."

  /** The profile types a user may register with. */
  const ProfileTypes: set<string> := {"Empreendedor", "Fornecedor", "Colaborador"}

  /** The JSON body of `register`; `None` is an absent field. */
  datatype RegisterBody = RegisterBody(nomeCompleto: Option<string>, email: Option<string>, senha: Option<string>, tipoPerfil: Option<string>)

  /** The JSON body of `login`. */
  datatype LoginBody = LoginBody(email: Option<string>, senha: Option<string>)

  /** `{ message, token }`, the success body of both routes. */
  datatype TokenReply = TokenReply(message: string, token: string)

  // ---------------------------------------------------------------------------
  // register
  // ---------------------------------------------------------------------------

  /** The checks `register` makes before it touches the store, in their order. */
  function RegisterCheck(users: seq<Usuario>, body: RegisterBody): (r: Option<Response<TokenReply>>)
    ensures r.Some? ==> r.value.Refusal?
    ensures r == Some(Refusal(400, AllFieldsRequired)) <==>
              !Truthy(body.nomeCompleto) || !Truthy(body.email) || !Truthy(body.senha) || !Truthy(body.tipoPerfil)
    ensures r == Some(Refusal(400, InvalidProfileType)) <==>
              Truthy(body.nomeCompleto) && Truthy(body.email) && Truthy(body.senha) && Truthy(body.tipoPerfil) &&
              body.tipoPerfil.value !in ProfileTypes
    ensures r == Some(Refusal(409, EmailTaken)) <==>
              Truthy(body.nomeCompleto) && Truthy(body.email) && Truthy(body.senha) && Truthy(body.tipoPerfil) &&
              body.tipoPerfil.value in ProfileTypes && FindUsuarioByEmail(users, body.email.value).Some?
    ensures r.None? ==> (Truthy(body.nomeCompleto) && Truthy(body.email) && Truthy(body.senha) &&
              Truthy(body.tipoPerfil) && body.tipoPerfil.value in ProfileTypes &&
              forall u | u in users :: u.email != body.email.value)
  {
    if !Truthy(body.nomeCompleto) || !Truthy(body.email) || !Truthy(body.senha) || !Truthy(body.tipoPerfil) then
      Some(Refusal(400, AllFieldsRequired))
    else if body.tipoPerfil.value !in ProfileTypes then Some(Refusal(400, InvalidProfileType))
    else if FindUsuarioByEmail(users, body.email.value).Some? then Some(Refusal(409, EmailTaken))
    else None
  }

  /** The user row `register` inserts: the credential is the salted hash of the password, never the password. */
  function NewUsuario(id: int, body: RegisterBody, hash: (string, nat) -> string): (u: Usuario)
    requires Truthy(body.nomeCompleto) && Truthy(body.email) && Truthy(body.senha) && Truthy(body.tipoPerfil)
    ensures u.id == id && u.nomeCompleto == body.nomeCompleto.value && u.email == body.email.value
    ensures u.senhaHash == hash(body.senha.value, SaltRounds) && u.tipoPerfil == body.tipoPerfil.value
    ensures u.nome.None?
  {
    Usuario(id, body.nomeCompleto.value, None, body.email.value, hash(body.senha.value, SaltRounds), body.tipoPerfil.value)
  }

  /** As written, the chat shows no name for a registered user: `register` never fills the `nome` column the chat reads. */
  lemma RegisteredChatNameAsWritten(id: int, body: RegisterBody, hash: (string, nat) -> string)
    requires Truthy(body.nomeCompleto) && Truthy(body.email) && Truthy(body.senha) && Truthy(body.tipoPerfil)
    ensures ChatNameAsWritten(NewUsuario(id, body, hash)) == None
  {
  }

  /** Read from `nome_completo`, a registered user's chat name is the non-empty name they registered with. */
  lemma RegisteredChatName(id: int, body: RegisterBody, hash: (string, nat) -> string)
    requires Truthy(body.nomeCompleto) && Truthy(body.email) && Truthy(body.senha) && Truthy(body.tipoPerfil)
    ensures ChatName(NewUsuario(id, body, hash)) == body.nomeCompleto && ChatName(NewUsuario(id, body, hash)).value != ""
  {
  }

  /** The base profile row: only the owner is given; every content column is NULL. */
  function BaseProfile(id: int, usuarioId: int, now: Time): (p: Perfil)
    ensures p.id == id && p.usuarioId == usuarioId
    ensures p.fotoUrl.None? && p.bio.None? && p.localizacao.None? && p.detalhes.None?
  {
    Perfil(id, usuarioId, None, None, None, None, now)
  }

  /**
   * `register`: 400 or 400 from the body checks with nothing written; then the
   * email query inside the `try` (`checkFails` is that query throwing, answered
   * 500 whatever it would have found), 409 for a stored email; then the user row
   * and its base profile in one transaction (`storeFails` rolls both back and
   * answers 500); then 201 with a one-hour token for `{ id, email, tipo_perfil }`.
   */
  method Register(db: Database, body: RegisterBody, hash: (string, nat) -> string, sign: Signer, now: Time,
                  checkFails: bool, storeFails: bool)
    returns (r: Response<TokenReply>)
    requires db.Valid()
    modifies db
    ensures db.Valid()
    ensures var check := RegisterCheck(old(db.usuarios), body);
      (check.Some? && (check.value.status == 400 || !checkFails) ==>
         r == check.value && db.usuarios == old(db.usuarios) && db.perfis == old(db.perfis)) &&
      ((check.None? || check.value.status != 400) && checkFails ==>
         r == Refusal(500, RegisterFailed) && db.usuarios == old(db.usuarios) && db.perfis == old(db.perfis)) &&
      (check.None? && !checkFails && storeFails ==> (r == Refusal(500, RegisterFailed) &&
         db.usuarios == old(db.usuarios) && db.perfis == old(db.perfis))) &&
      (check.None? && !checkFails && !storeFails ==>
         var u := NewUsuario(old(db.nextUsuarioId), body, hash);
         db.usuarios == old(db.usuarios) + [u] &&
         db.perfis == old(db.perfis) + [BaseProfile(old(db.nextPerfilId), u.id, now)] &&
         r == Reply(201, TokenReply(Registered, sign(LoginClaims(u.id, u.email, u.tipoPerfil), OneHour))))
    ensures r.Refusal? ==> db.nextUsuarioId == old(db.nextUsuarioId) && db.nextPerfilId == old(db.nextPerfilId)
    ensures r.Reply? ==> db.nextUsuarioId == old(db.nextUsuarioId) + 1 && db.nextPerfilId == old(db.nextPerfilId) + 1
    ensures db.publicacoes == old(db.publicacoes) && db.messages == old(db.messages)
    ensures db.conversations == old(db.conversations) && db.participants == old(db.participants)
    ensures db.nextPublicacaoId == old(db.nextPublicacaoId) && db.nextConversationId == old(db.nextConversationId)
    ensures db.nextMessageId == old(db.nextMessageId)
  {
    var check := RegisterCheck(db.usuarios, body);
    if check.Some? && check.value.status == 400 {
      return check.value;
    }
    if checkFails {
      return Refusal(500, RegisterFailed);
    }
    if check.Some? {
      return check.value;
    }
    if storeFails {
      return Refusal(500, RegisterFailed);
    }
    var u := NewUsuario(db.nextUsuarioId, body, hash);
    db.usuarios := db.usuarios + [u];
    db.nextUsuarioId := db.nextUsuarioId + 1;
    db.perfis := db.perfis + [BaseProfile(db.nextPerfilId, u.id, now)];
    db.nextPerfilId := db.nextPerfilId + 1;
    r := Reply(201, TokenReply(Registered, sign(LoginClaims(u.id, u.email, u.tipoPerfil), OneHour)));
  }

  /** Registration keeps emails unique: a table with distinct emails still has them after the insert. */
  lemma RegisterKeepsEmailsUnique(users: seq<Usuario>, body: RegisterBody, id: int, hash: (string, nat) -> string)
    requires RegisterCheck(users, body).None?
    requires forall i, j | 0 <= i < j < |users| :: users[i].email != users[j].email
    ensures var users' := users + [NewUsuario(id, body, hash)];
      forall i, j | 0 <= i < j < |users'| :: users'[i].email != users'[j].email
  {
    var users' := users + [NewUsuario(id, body, hash)];
    forall i, j | 0 <= i < j < |users'|
      ensures users'[i].email != users'[j].email
    {
      if j == |users| {
        assert users'[i] == users[i] && users[i] in users;
      }
    }
  }

  // ---------------------------------------------------------------------------
  // login
  // ---------------------------------------------------------------------------

  /**
   * `login`: 400 without email or password; the same 401 for an unknown email
   * and for a wrong password; else 200 with a one-hour token for the row's
   * `{ id, email, tipo_perfil }`. A store error is 500.
   */
  function Login(users: seq<Usuario>, body: LoginBody, compare: (string, string) -> bool, sign: Signer, storeFails: bool)
    : (r: Response<TokenReply>)
    ensures r == Refusal(400, CredentialsRequired) <==> !Truthy(body.email) || !Truthy(body.senha)
    ensures r == Refusal(500, LoginFailed) <==> Truthy(body.email) && Truthy(body.senha) && storeFails
    ensures r == Refusal(401, InvalidCredentials) <==>
              Truthy(body.email) && Truthy(body.senha) && !storeFails &&
              (FindUsuarioByEmail(users, body.email.value).None? ||
               !compare(body.senha.value, FindUsuarioByEmail(users, body.email.value).value.senhaHash))
    ensures r.Reply? ==> var u := FindUsuarioByEmail(users, body.email.value).value;
              r == Reply(200, TokenReply(LoggedIn, sign(LoginClaims(u.id, u.email, u.tipoPerfil), OneHour))) &&
              compare(body.senha.value, u.senhaHash)
  {
    if !Truthy(body.email) || !Truthy(body.senha) then Refusal(400, CredentialsRequired)
    else if storeFails then Refusal(500, LoginFailed)
    else
      var found := FindUsuarioByEmail(users, body.email.value);
      if found.None? || !compare(body.senha.value, found.value.senhaHash) then Refusal(401, InvalidCredentials)
      else Reply(200, TokenReply(LoggedIn, sign(LoginClaims(found.value.id, found.value.email, found.value.tipoPerfil), OneHour)))
  }

  /** An unknown email and a wrong password for a known one cannot be told apart by the answer. */
  lemma FailedLoginsAreIndistinguishable(
    unknown: seq<Usuario>, known: seq<Usuario>, body: LoginBody, compare: (string, string) -> bool, sign: Signer)
    requires Truthy(body.email) && Truthy(body.senha)
    requires FindUsuarioByEmail(unknown, body.email.value).None?
    requires FindUsuarioByEmail(known, body.email.value).Some?
    requires !compare(body.senha.value, FindUsuarioByEmail(known, body.email.value).value.senhaHash)
    ensures Login(unknown, body, compare, sign, false) == Login(known, body, compare, sign, false)
  {
  }

  lemma {:induction false} FindByEmailAppend(users: seq<Usuario>, u: Usuario, email: string)
    requires FindUsuarioByEmail(users, email).None? && u.email == email
    ensures FindUsuarioByEmail(users + [u], email) == Some(u)
  {
    if users != [] {
      assert (users + [u])[1..] == users[1..] + [u];
      FindByEmailAppend(users[1..], u, email);
    }
  }

  /**
   * Whoever just registered can log in with the same email and password, when
   * `compare` accepts a password against its own hash, and gets a token for
   * the claims registration signed.
   */
  lemma RegisteredUserCanLogIn(
    users: seq<Usuario>, body: RegisterBody, id: int, hash: (string, nat) -> string,
    compare: (string, string) -> bool, sign: Signer)
    requires RegisterCheck(users, body).None?
    requires compare(body.senha.value, hash(body.senha.value, SaltRounds))
    ensures var u := NewUsuario(id, body, hash);
      Login(users + [u], LoginBody(body.email, body.senha), compare, sign, false) ==
      Reply(200, TokenReply(LoggedIn, sign(LoginClaims(id, u.email, u.tipoPerfil), OneHour)))
  {
    var u := NewUsuario(id, body, hash);
    FindByEmailAppend(users, u, body.email.value);
  }
}
