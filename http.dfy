/** What a handler or middleware can do with a request: let it continue,
    answer it, redirect it, or throw. Cookie changes travel with redirects.
    `jwt.verify` and `jwt.sign` are parameters: the model is the decision
    logic around them, not the cryptography. */
module Http {
  import opened Wrappers
  import opened Json

  /** The outcome of `jwt.verify(token, secret)`: the decoded payload, or the
      error it throws, by `name` and `message`. */
  datatype Verification =
    | Verified(claims: Object)
    | Rejected(name: string, message: string)

  /** `err.name` of the error jsonwebtoken throws for a token past its `exp`. */
  const ExpiredName := "TokenExpiredError"

  /** The claims jsonwebtoken may add to a payload when it signs it. */
  const RegisteredClaims: set<string> := {"iat", "exp", "nbf", "aud", "iss", "sub", "jti"}

  /** `jwt.verify` accepted a token signed over `payload`: the decoded claims
      hold each key of the payload with its value, and anything else they
      hold is a registered claim (`iat` and `exp` for `expiresIn`). */
  predicate Carries(v: Verification, payload: Object) {
    && v.Verified?
    && (forall k :: k in payload ==> k in v.claims && v.claims[k] == payload[k])
    && (forall k :: k in v.claims && k !in payload ==> k in RegisteredClaims)
  }

  /** `jwt.verify(token, secret)` for a fixed secret and clock. */
  type Verifier = string -> Verification

  /** `jwt.sign(payload, secret, { expiresIn })` for a fixed secret, with
      `expiresIn` in seconds. */
  type Signer = (Object, nat) -> string

  datatype Cookie = Cookie(
    value: string,
    httpOnly: bool,
    secure: bool,
    sameSiteStrict: bool,
    maxAgeMs: Option<nat>)

  datatype Effect =
    | SetCookie(name: string, cookie: Cookie)   // `res.cookie(name, value, options)`
    | ClearCookie(name: string)                 // `res.clearCookie(name)`

  datatype Outcome =
    | Next(user: Option<Object>)                        // `next()`, with the user attached (or null)
    | Respond(status: nat, message: string, detail: string)  // a status with a `message` (and `error`) body
    | Redirect(location: string, effects: seq<Effect>)  // `res.redirect(location)` after the cookie changes
    | Throw(error: string)                              // an exception escapes to Express

  /** `if (token)` on a cookie value: present and non-empty. */
  predicate Present(token: Option<string>) {
    token.Some? && token.value != ""
  }
}
