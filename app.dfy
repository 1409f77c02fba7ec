/** app.js: the middleware that exposes the logged-in user to the templates,
    and the page and per-page defaults of the home page. The app's own
    `ensureAuthenticated` and `GET /auth/logout` are the ones of the `/auth`
    router, `AuthRoutes.EnsureAuthenticated` and `AuthRoutes.Logout`. */
module App {
  import opened Wrappers
  import opened Json
  import opened Http
  import AuthRoutes

  /** The template-user middleware: no token, or a token that fails for a
      reason other than expiry, continues with no user; a verified token
      continues with its claims; an expired one clears the cookie and
      redirects to the login page without continuing. */
  function TemplateUser(token: Option<string>, verify: Verifier): (o: Outcome)
    ensures !Present(token) ==> o == Next(None)
    ensures Present(token) && verify(token.value).Verified? ==> o == Next(Some(verify(token.value).claims))
    ensures Present(token) && verify(token.value).Rejected? ==>
      o == if verify(token.value).name == ExpiredName
           then Redirect("/auth/login", [ClearCookie(AuthRoutes.TokenCookie)])
           else Next(None)
  {
    if !Present(token) then Next(None)
    else match verify(token.value)
      case Verified(user) => Next(Some(user))
      case Rejected(name, _) =>
        if name == ExpiredName then Redirect("/auth/login", [ClearCookie(AuthRoutes.TokenCookie)])
        else Next(None)
  }

  /** The middleware stops a request only for an expired token, and never
      attaches a user that the verifier did not vouch for. */
  lemma TemplateUserStopsOnlyOnExpiry(token: Option<string>, verify: Verifier)
    ensures var o := TemplateUser(token, verify);
      && (!o.Next? <==> Present(token) && verify(token.value).Rejected?
                        && verify(token.value).name == ExpiredName)
      && (o.Next? && o.user.Some? ==> Present(token) && verify(token.value) == Verified(o.user.value))
  {
  }

  /** `parseInt(param) || fallback`: a value that does not parse (NaN) or
      parses to 0 gives the fallback. As a number it is exactly the
      language's `||` (`Json.Or`) on the parsed value and the fallback. */
  function IntOr(parsed: Option<int>, fallback: int): (r: int)
    ensures parsed.Some? && parsed.value != 0 ==> r == parsed.value
    ensures parsed.None? || parsed.value == 0 ==> r == fallback
    ensures Num(r as real) == Or(Some(if parsed.Some? then Num(parsed.value as real) else NaN), Num(fallback as real))
  {
    if parsed.Some? && parsed.value != 0 then parsed.value else fallback
  }

  /** The home page's `page` and `perPage`, from the parsed query
      parameters (`None` where `parseInt` gives NaN). */
  function HomePaging(page: Option<int>, perPage: Option<int>): (r: (int, int))
    ensures r.0 == IntOr(page, 1) && r.1 == IntOr(perPage, 5)
    ensures r.0 != 0 && r.1 != 0
    ensures page.None? && perPage.None? ==> r == (1, 5)
  {
    (IntOr(page, 1), IntOr(perPage, 5))
  }

  /** A positive parsed value always wins over the default. */
  lemma HomePagingKeepsPositive(page: int, perPage: int)
    requires page >= 1 && perPage >= 1
    ensures HomePaging(Some(page), Some(perPage)) == (page, perPage)
  {
  }
}
