/** The token library and the signing secret as the login and the middleware see them. */
module Jwt {
  import opened Js

  /** The secret both the service and the middleware fall back to. */
  const DefaultSecret: string := "TuClaveSecretaSuperLargaYCompleja"

  /** `process.env.JWT_SECRET || 'TuClaveSecretaSuperLargaYCompleja'`: an unset or empty variable falls back. */
  function Secret(env: Option<string>): (s: string)
    ensures env.Some? && env.value != "" ==> s == env.value
    ensures env.None? || env == Some("") ==> s == DefaultSecret
  {
    if env.Some? && env.value != "" then env.value else DefaultSecret
  }

  /** `jwt.sign(payload, secret, { expiresIn })`: an uninterpreted signer. */
  type Signer = (Obj, string, string) -> string

  /** `jwt.verify(token, secret, callback)`: the decoded payload, or None when the callback receives an error. */
  type Verifier = (string, string) -> Option<Value>

  /** The registered claims `jwt.sign` adds to a payload signed with `expiresIn`: the issue and the expiry time. */
  const AddedClaims: set<string> := {"iat", "exp"}

  /**
   * The verifier accepts what the signer produced with the same secret and decodes it to an object that holds every
   * claim with its value, and besides them at most the times the library adds.
   */
  predicate Accepts(verify: Verifier, sign: Signer, claims: Obj, secret: string, expiresIn: string) {
    var d := verify(sign(claims, secret, expiresIn), secret);
    d.Some? && d.value.Object? &&
    (forall k :: k in claims ==> k in d.value.fields && d.value.fields[k] == claims[k]) &&
    (forall k :: k in d.value.fields ==> k in claims || k in AddedClaims)
  }
}
