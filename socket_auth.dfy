/**
 * `middleware/socketAuth.js`: the Socket.IO handshake check of the Node chat.
 * It takes the token from `handshake.auth.token` or the authorization header,
 * verifies it, and loads the user row the chat handlers then call `socket.user`.
 *
 * As written it looks the user up by the payload's `userId`, a key the Node
 * login and registration tokens never carry (they carry `id`): the lookup
 * parameter is undefined, the query matches no row, and every such token is
 * refused. `AuthenticateAsWritten` models that; `Authenticate` reads `id`.
 */
module SocketAuth {
  import opened Wrappers
  import opened Text
  import opened NodeDb
  import opened Jwt
  import opened ChatSocket
  import AuthRoutes

  const AuthRequired := "Autenticação necessária"
  const UserNotFound := "Usuário não encontrado"
  const TokenInvalid := "Token inválido"

  /** The parts of the handshake the middleware reads; `None` is an absent value. */
  datatype Handshake = Handshake(authToken: Option<string>, authorization: Option<string>)

  /** `handshake.auth.token || handshake.headers.authorization?.split(' ')[1]`. */
  function HandshakeToken(h: Handshake): (r: Option<string>)
    ensures Truthy(h.authToken) ==> r == h.authToken
    ensures !Truthy(h.authToken) && h.authorization.None? ==> r.None?
    ensures !Truthy(h.authToken) && h.authorization.Some? ==> r == SecondWord(h.authorization.value)
  {
    if Truthy(h.authToken) then h.authToken
    else if h.authorization.None? then None
    else SecondWord(h.authorization.value)
  }

  /** `SELECT id, nome, email FROM usuarios`: the projection the chat handlers see, with the user's chat name. */
  function SocketUserOf(u: Usuario): SocketUser {
    SocketUser(u.id, ChatName(u), u.email)
  }

  /**
   * The middleware, with the payload key that is read as the user id as a
   * parameter: no token is 'Autenticação necessária'; a token that fails to
   * verify, and a failing query, are 'Token inválido'; an absent key (bound as
   * NULL) or an id without a row is 'Usuário não encontrado'; else the row.
   */
  function AuthenticateBy(key: Payload -> Option<int>, h: Handshake, users: seq<Usuario>, verify: Verifier, storeFails: bool)
    : (r: Result<SocketUser, string>)
    ensures r == Failure(AuthRequired) <==> !Truthy(HandshakeToken(h))
    ensures r == Failure(TokenInvalid) <==>
              Truthy(HandshakeToken(h)) && (!verify(HandshakeToken(h).value).Valid? || storeFails)
    ensures r == Failure(UserNotFound) <==>
              Truthy(HandshakeToken(h)) && verify(HandshakeToken(h).value).Valid? && !storeFails &&
              (key(verify(HandshakeToken(h).value).payload).None? ||
               FindUsuario(users, key(verify(HandshakeToken(h).value).payload).value).None?)
    ensures r.Success? ==> var id := key(verify(HandshakeToken(h).value).payload);
              id.Some? && FindUsuario(users, id.value).Some? && r.value == SocketUserOf(FindUsuario(users, id.value).value)
  {
    var token := HandshakeToken(h);
    if !Truthy(token) then Failure(AuthRequired)
    else
      var verdict := verify(token.value);
      if !verdict.Valid? || storeFails then Failure(TokenInvalid)
      else
        var id := key(verdict.payload);
        if id.None? then Failure(UserNotFound)
        else
          var u := FindUsuario(users, id.value);
          if u.None? then Failure(UserNotFound) else Success(SocketUserOf(u.value))
  }

  /** `decoded.userId`. */
  function UserIdClaim(p: Payload): Option<int> {
    p.userId
  }

  /** `decoded.id`. */
  function IdClaim(p: Payload): Option<int> {
    p.id
  }

  /** The middleware as written: the user id is read from `decoded.userId`, and a payload without it finds no row. */
  function AuthenticateAsWritten(h: Handshake, users: seq<Usuario>, verify: Verifier, storeFails: bool): (r: Result<SocketUser, string>)
    ensures r.Success? ==> (Truthy(HandshakeToken(h)) && verify(HandshakeToken(h).value).Valid? &&
              verify(HandshakeToken(h).value).payload.userId.Some? &&
              r.value.id == verify(HandshakeToken(h).value).payload.userId.value)
    ensures (Truthy(HandshakeToken(h)) && verify(HandshakeToken(h).value).Valid? && !storeFails &&
             verify(HandshakeToken(h).value).payload.userId.None?) ==> r == Failure(UserNotFound)
  {
    AuthenticateBy(UserIdClaim, h, users, verify, storeFails)
  }

  /** The middleware as intended: the user id is the `id` claim the login and registration tokens carry. */
  function Authenticate(h: Handshake, users: seq<Usuario>, verify: Verifier, storeFails: bool): (r: Result<SocketUser, string>)
    ensures r.Success? ==> (Truthy(HandshakeToken(h)) && verify(HandshakeToken(h).value).Valid? &&
              verify(HandshakeToken(h).value).payload.id.Some? &&
              r.value.id == verify(HandshakeToken(h).value).payload.id.value)
    ensures (Truthy(HandshakeToken(h)) && verify(HandshakeToken(h).value).Valid? && !storeFails &&
             verify(HandshakeToken(h).value).payload.id.Some?) ==>
              (r.Success? <==> FindUsuario(users, verify(HandshakeToken(h).value).payload.id.value).Some?)
  {
    AuthenticateBy(IdClaim, h, users, verify, storeFails)
  }

  /**
   * A token issued by `login` fails the handshake as written, even though the
   * user exists, and passes it as intended with that user's row, when the
   * verifier accepts what the signer produced.
   */
  lemma LoginTokenAtTheHandshake(
    users: seq<Usuario>, body: AuthRoutes.LoginBody, compare: (string, string) -> bool, sign: Signer, verify: Verifier)
    requires AuthRoutes.Login(users, body, compare, sign, false).Reply?
    requires var u := FindUsuarioByEmail(users, body.email.value).value;
      var claims := LoginClaims(u.id, u.email, u.tipoPerfil);
      sign(claims, OneHour) != "" && verify(sign(claims, OneHour)) == Valid(claims)
    ensures var token := AuthRoutes.Login(users, body, compare, sign, false).body.token;
      var u := FindUsuarioByEmail(users, body.email.value).value;
      AuthenticateAsWritten(Handshake(Some(token), None), users, verify, false) == Failure(UserNotFound) &&
      Authenticate(Handshake(Some(token), None), users, verify, false).Success? &&
      Authenticate(Handshake(Some(token), None), users, verify, false).value.id == u.id
  {
    var u := FindUsuarioByEmail(users, body.email.value).value;
    assert u in users;
    assert FindUsuario(users, u.id).Some?;
  }

  /** Concretely: Ana is registered with id 1 and logs in; as written her token is refused with 'Usuário não encontrado'. */
  lemma AnaIsRefusedAsWritten(verify: Verifier)
    requires verify("t") == Valid(LoginClaims(1, "ana@x", "Fornecedor"))
    ensures var users := [Usuario(1, "Ana", None, "ana@x", "h", "Fornecedor")];
      AuthenticateAsWritten(Handshake(Some("t"), None), users, verify, false) == Failure(UserNotFound) &&
      Authenticate(Handshake(Some("t"), None), users, verify, false) == Success(SocketUser(1, Some("Ana"), "ana@x"))
  {
    var users := [Usuario(1, "Ana", None, "ana@x", "h", "Fornecedor")];
    assert FindUsuario(users, 1) == Some(users[0]);
  }

  /** The auth token wins over the header; the header's scheme word is not checked. */
  lemma HeaderTokenUsedOnlyWithoutAuthToken(scheme: string, token: string)
    requires ' ' !in scheme && ' ' !in token
    ensures HandshakeToken(Handshake(None, Some(scheme + " " + token))) == Some(token)
    ensures HandshakeToken(Handshake(Some("a"), Some(scheme + " " + token))) == Some("a")
  {
    SecondWordOfHeader(scheme, token);
  }
}
