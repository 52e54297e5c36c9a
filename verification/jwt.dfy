/** The JSON Web Token operations the handlers call. Signing and verification
    are foreign: `Signer` and `Verifier` are parameters, and only the claims
    the handlers put in or read out are modelled (`sub` and `exp`, sections
    4.1.2 and 4.1.4 of RFC 7519). */
module Jwt {
  import opened Outcomes
  import opened Js

  /** The claims `jwt.sign` writes: subject, issued-at and expiry, in seconds. */
  datatype Claims = Claims(sub: string, iat: nat, exp: nat)

  /** `expiresIn: '7d'`, in seconds. */
  const TokenLifetime: nat := 7 * 24 * 60 * 60

  /** The part of a verified payload the middleware reads. `sub` is whatever
      the token carries, if anything; a string payload has no `sub`. */
  datatype Decoded = Decoded(sub: Option<Value>)

  /** What `jwt.verify(token, secret)` does: return a payload or throw. */
  datatype Verification = Verified(payload: Decoded) | VerifyFailed(error: Thrown)

  /** Produces the compact token for the claims under the key. */
  type Signer = (Claims, string) -> string

  /** `jwt.verify(token, secret)` at the moment the middleware runs. */
  type Verifier = (string, string) -> Verification

  /** What `jwt.sign` throws when it is given no key (an unset or empty secret). */
  const MissingKey: Thrown := ErrorObject("Error", "secretOrPrivateKey must have a value", None)

  /** `jwt.sign({ sub }, secret, { expiresIn: '7d' })` at time `now`. */
  function Sign(sign: Signer, sub: string, secret: Option<string>, now: nat): (r: Result<string, Thrown>)
    ensures r.Failure? <==> !NonEmpty(secret)
    ensures r.Failure? ==> r.error == MissingKey
    ensures r.Success? ==> r.value == sign(Claims(sub, now, now + TokenLifetime), secret.value)
  {
    if !NonEmpty(secret) then Failure(MissingKey)
    else Success(sign(Claims(sub, now, now + TokenLifetime), secret.value))
  }

  /** The signer and verifier agree at time `at`: tokens are non-empty and
      contain no space, and a token signed under a non-empty key that has not
      yet expired verifies under that key to its own subject. */
  ghost predicate Agree(sign: Signer, verify: Verifier, at: nat) {
    forall c: Claims, k: string {:trigger sign(c, k)} :: k != "" ==>
      && sign(c, k) != ""
      && ' ' !in sign(c, k)
      && (at < c.exp ==> verify(sign(c, k), k) == Verified(Decoded(Some(Str(c.sub)))))
  }
}
