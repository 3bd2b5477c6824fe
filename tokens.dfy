/** Session-token claim sets (RFC 7519) as the login and signup handlers
    issue them and the chat handler reads them back. Signing and verifying
    (HS256, section 3.2 of RFC 7518) are not modelled: the model sees them
    only through their outcomes. */
module Tokens {
  import opened Values

  /** `JWT_EXPIRATION_HOURS`. */
  const ExpirationHours: int := 24

  /** The token lifetime in seconds, the unit of the `exp` and `iat` claims. */
  const ExpirationSeconds: int := ExpirationHours * 3600

  /** The claims `generate_jwt` puts in a token. Times are seconds since the
      epoch, as a JSON Web Token carries them (section 4.1.4 of RFC 7519). */
  datatype ClaimSet = ClaimSet(email: Json, sessionId: string, exp: int, iat: int, sub: Json)

  /** The claim set as the decoded payload dict that `jwt.decode` returns. */
  function Payload(c: ClaimSet): map<string, Json> {
    map["email" := c.email, "sessionId" := JStr(c.sessionId), "exp" := JNum(c.exp),
        "iat" := JNum(c.iat), "sub" := c.sub]
  }

  /** What `jwt.encode` did with a claim set. */
  datatype Signing = Signed(token: string) | SigningFailure(message: string)

  /** What `jwt.decode` did with a token: the payload, one of the two PyJWT
      errors the chat handler names, or another exception with its text. */
  datatype Decoding = Decoded(payload: map<string, Json>) | ExpiredSignature | InvalidToken | DecodeFailure(message: string)

  /** A signer and a verifier that share one secret, observed at time
      `clock`: every token the signer produced decodes to its claims while
      the clock is before `exp`, and is reported expired from `exp` on
      (section 4.1.4 of RFC 7519). Nothing is said about a clock before `iat`. */
  ghost predicate SharedSecret(sign: ClaimSet -> Signing, verify: string -> Decoding, clock: int) {
    forall c :: sign(c).Signed? && c.iat <= clock ==>
      verify(sign(c).token) == if clock < c.exp then Decoded(Payload(c)) else ExpiredSignature
  }
}
