/** utils/authenticateAdmin.js: the gate in front of admin-only pages,
    reading the `authToken` cookie. */
module AuthenticateAdmin {
  import opened Wrappers
  import opened Json
  import opened Http

  /** `authenticateAdmin`: no token is 403 "Access denied"; a token that does
      not verify is 403 "Invalid token" with the verifier's message; a token
      whose `role` is not exactly `'admin'` is 403; otherwise `next()`, without attaching a user to the request. */
  function AuthenticateAdmin(token: Option<string>, verify: Verifier): (o: Outcome)
    ensures !Present(token) ==> o == Respond(403, "Access denied", "No token provided")
    ensures Present(token) && verify(token.value).Rejected? ==>
      o == Respond(403, "Invalid token", verify(token.value).message)
    ensures (Present(token) && verify(token.value).Verified?
             && Get(verify(token.value).claims, "role") != Some(Str("admin"))) ==>
      o == Respond(403, "Access restricted to admin users only", "You do not have the required permissions")
    ensures (Present(token) && verify(token.value).Verified?
             && Get(verify(token.value).claims, "role") == Some(Str("admin"))) ==>
      o == Next(None)
  {
    if !Present(token) then Respond(403, "Access denied", "No token provided")
    else match verify(token.value)
      case Rejected(_, message) => Respond(403, "Invalid token", message)
      case Verified(decoded) =>
        if Get(decoded, "role") != Some(Str("admin")) then
          Respond(403, "Access restricted to admin users only", "You do not have the required permissions")
        else Next(None)
  }

  /** The gate calls `next` exactly when the token is present, verifies, and
      carries the role `'admin'`; every other path answers 403 once. */
  lemma AdminIff(token: Option<string>, verify: Verifier)
    ensures var o := AuthenticateAdmin(token, verify);
      && (o.Next? <==> Present(token) && verify(token.value).Verified?
                       && Get(verify(token.value).claims, "role") == Some(Str("admin")))
      && (o.Next? || (o.Respond? && o.status == 403))
  {
  }

  /** The role test is case-sensitive: a token for "Admin" is refused. */
  lemma AdminCaseSensitive(token: string, verify: Verifier)
    requires token != ""
    requires verify(token).Verified? && Get(verify(token).claims, "role") == Some(Str("Admin"))
    ensures AuthenticateAdmin(Some(token), verify).Respond?
  {
    assert "Admin" != "admin" by { assert "Admin"[0] != "admin"[0]; }
  }
}
