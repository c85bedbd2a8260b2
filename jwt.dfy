/**
 * JSON Web Tokens as the Node back end uses them through `jsonwebtoken`.
 * Signing and verifying are cryptography with a server secret, so they are
 * parameters of the operations that use them: `Signer` stands for
 * `jwt.sign(payload, secret, { expiresIn })`, `Verifier` for `jwt.verify`.
 */
module Jwt {
  import opened Wrappers

  /** A token payload: the JSON object's keys this back end reads or writes; `None` is an absent key. */
  datatype Payload = Payload(id: Option<int>, userId: Option<int>, email: Option<string>, tipoPerfil: Option<string>)

  /** What `jwt.verify` does with a token: returns the payload, or throws `TokenExpiredError` or another error. */
  datatype Verdict = Valid(payload: Payload) | Expired | Invalid

  type Signer = (Payload, nat) -> string
  type Verifier = string -> Verdict

  /** `expiresIn: "1h"`, in seconds. */
  const OneHour: nat := 3600

  /** The payload login and registration sign: `{ id, email, tipo_perfil }`. */
  function LoginClaims(id: int, email: string, tipoPerfil: string): (p: Payload)
    ensures p.id == Some(id) && p.email == Some(email) && p.tipoPerfil == Some(tipoPerfil)
    ensures p.userId.None?
  {
    Payload(Some(id), None, Some(email), Some(tipoPerfil))
  }
}
