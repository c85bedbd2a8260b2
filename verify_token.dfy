/**
 * `middleware/verifyToken.js`: the Express middleware in front of every
 * protected Node route. It either lets the request through with the token's
 * payload as `req.user` (calling `next` once) or answers it itself.
 */
module VerifyToken {
  import opened Wrappers
  import opened Text
  import opened Jwt

  const NoToken := "Acesso negado. Nenhum token fornecido."
  const TokenExpired := "Token expirado."
  const TokenInvalid := "Token inválido."

  /** The middleware's outcome: `next()` with `req.user` set, or a refusal with no `next()`. */
  datatype Outcome = Proceed(user: Payload) | Refused(status: int, message: string)

  /** `authHeader && authHeader.split(" ")[1]`: an absent or empty header, or one without a space, gives no token. */
  function BearerToken(authorization: Option<string>): (r: Option<string>)
    ensures r.Some? ==> authorization.Some? && r == SecondWord(authorization.value)
    ensures authorization.Some? && authorization.value != "" ==> r == SecondWord(authorization.value)
  {
    if authorization.None? || authorization.value == "" then None else SecondWord(authorization.value)
  }

  /** `verifyToken`. */
  function Check(authorization: Option<string>, verify: Verifier): (r: Outcome)
    ensures r == Refused(401, NoToken) <==> !Truthy(BearerToken(authorization))
    ensures r.Proceed? <==> Truthy(BearerToken(authorization)) && verify(BearerToken(authorization).value).Valid?
    ensures r.Proceed? ==> r.user == verify(BearerToken(authorization).value).payload
    ensures r == Refused(401, TokenExpired) <==>
              Truthy(BearerToken(authorization)) && verify(BearerToken(authorization).value).Expired?
    ensures r == Refused(403, TokenInvalid) <==>
              Truthy(BearerToken(authorization)) && verify(BearerToken(authorization).value).Invalid?
  {
    var token := BearerToken(authorization);
    if !Truthy(token) then Refused(401, NoToken)
    else
      match verify(token.value)
      case Valid(payload) => Proceed(payload)
      case Expired => Refused(401, TokenExpired)
      case Invalid => Refused(403, TokenInvalid)
  }

  /** The scheme word is not checked: `<any word> <token>` with a valid token passes with that token's payload. */
  lemma AnySchemeWordPasses(scheme: string, token: string, verify: Verifier)
    requires ' ' !in scheme && ' ' !in token && token != ""
    requires verify(token).Valid?
    ensures Check(Some(scheme + " " + token), verify) == Proceed(verify(token).payload)
  {
    SecondWordOfHeader(scheme, token);
  }

  /** A header that is only the scheme word (`"Bearer"`) carries no token at all. */
  lemma SchemeAloneIsNoToken(scheme: string, verify: Verifier)
    requires ' ' !in scheme
    ensures Check(Some(scheme), verify) == Refused(401, NoToken)
  {
  }
}
