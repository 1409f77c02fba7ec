/** routes/userRoutes.js: the bearer-token gate `authenticateUser(roles)` and
    the JSON register, login and logout routes. Users carry a `roles` value. */
module UserRoutes {
  import opened Wrappers
  import opened Json
  import opened Strings
  import opened Http
  import opened Users

  // ---------------------------------------------------------------- the gate

  /** `authHeader && authHeader.split(' ')[1]`, read as a token only when it
      is truthy. */
  function BearerToken(header: Option<string>): (r: Option<string>)
    ensures r.Some? <==>
      header.Some? && header.value != "" && |Split(header.value, ' ')| >= 2 && Split(header.value, ' ')[1] != ""
    ensures r.Some? ==> r.value == Split(header.value, ' ')[1] && r.value != "" && ' ' !in r.value
  {
    match header
    case None => None
    case Some(h) =>
      if h == "" then None
      else
        var parts := Split(h, ' ');
        if |parts| >= 2 && parts[1] != "" then Some(parts[1]) else None
  }

  /** `Bearer <t>` carries `t`, for any token without spaces. */
  lemma BearerOfScheme(t: string)
    requires t != "" && ' ' !in t
    ensures BearerToken(Some("Bearer " + t)) == Some(t)
  {
    assert Join(["Bearer", t], ' ') == "Bearer " + t;
    SplitJoin(["Bearer", t], ' ');
  }

  /** The token is the second piece, not what follows the first space: two
      spaces, or a scheme on its own, give no token. */
  lemma BearerNeedsOneSpace(t: string)
    ensures BearerToken(Some("Bearer  " + t)) == None
    ensures BearerToken(Some("Bearer")) == None
  {
    var pieces := Split(t, ' ');
    JoinSplit(t, ' ');
    var parts := ["Bearer", ""] + pieces;
    assert Join(parts, ' ') == "Bearer  " + t by {
      assert parts[1..] == [""] + pieces;
      assert Join(parts[1..], ' ') == "" + [' '] + Join(pieces, ' ') by {
        assert parts[1..][1..] == pieces;
      }
    }
    SplitJoin(parts, ' ');
    assert Join(["Bearer"], ' ') == "Bearer";
    SplitJoin(["Bearer"], ' ');
  }

  /** `s.includes(t)` on strings. */
  predicate Contains(s: string, t: string) {
    exists i :: 0 <= i <= |s| && t <= s[i..]
  }

  /** `roles.some(role => userRoles.includes(role))` where `userRoles` is
      the token's `roles`: an array is searched for the role, a string for
      the role as a substring; on anything else (`undefined` included) each
      `includes` call throws, which happens only when there is a role to test. */
  function Shares(required: seq<string>, userRoles: Option<Value>): (r: Option<bool>)
    ensures required == [] ==> r == Some(false)
    ensures required != [] && !(userRoles.Some? && (userRoles.value.Arr? || userRoles.value.Str?)) ==> r.None?
    ensures userRoles.Some? && userRoles.value.Arr? ==>
      r == Some(exists role :: role in required && Str(role) in userRoles.value.items)
  {
    if required == [] then Some(false)
    else match userRoles
      case Some(Arr(items)) => Some(exists role :: role in required && Str(role) in items)
      case Some(Str(s)) => Some(exists role :: role in required && Contains(s, role))
      case _ => None
  }

  /** `authenticateUser(required)`: no bearer token is 401; a token that does
      not verify is 403; a verified user sharing no role with `required` is
      403; otherwise the request continues with the claims as `req.user`. */
  function AuthenticateUser(required: seq<string>, header: Option<string>, verify: Verifier): (o: Outcome)
    ensures BearerToken(header).None? ==> o == Respond(401, "Unauthorized", "")
    ensures BearerToken(header).Some? && verify(BearerToken(header).value).Rejected? ==>
      o == Respond(403, "Forbidden", "")
    ensures o.Next? <==>
      && BearerToken(header).Some?
      && verify(BearerToken(header).value).Verified?
      && Shares(required, Get(verify(BearerToken(header).value).claims, "roles")) == Some(true)
    ensures BearerToken(header).Some? && verify(BearerToken(header).value).Verified?
            && Shares(required, Get(verify(BearerToken(header).value).claims, "roles")) == Some(false)
      ==> o == Respond(403, "Forbidden", "")
    ensures BearerToken(header).Some? && verify(BearerToken(header).value).Verified?
            && Shares(required, Get(verify(BearerToken(header).value).claims, "roles")).None?
      ==> o == Throw("TypeError")
    ensures o.Next? ==> o.user == Some(verify(BearerToken(header).value).claims)
    ensures o.Respond? ==> o.status in {401, 403}
  {
    match BearerToken(header)
    case None => Respond(401, "Unauthorized", "")
    case Some(token) =>
      match verify(token)
      case Rejected(_, _) => Respond(403, "Forbidden", "")
      case Verified(user) =>
        match Shares(required, Get(user, "roles"))
        case None => Throw("TypeError")
        case Some(false) => Respond(403, "Forbidden", "")
        case Some(true) => Next(Some(user))
  }

  /** With array roles in the token, the gate admits exactly when some
      required role is among them. */
  lemma AdmitWithArrayRoles(required: seq<string>, header: Option<string>, verify: Verifier)
    requires BearerToken(header).Some? && verify(BearerToken(header).value).Verified?
    requires var c := verify(BearerToken(header).value).claims;
      "roles" in c && c["roles"].Arr?
    ensures var items := verify(BearerToken(header).value).claims["roles"].items;
      AuthenticateUser(required, header, verify).Next? <==>
        exists role :: role in required && Str(role) in items
  {
    var items := verify(BearerToken(header).value).claims["roles"].items;
    if required == [] {
      assert !(exists role :: role in required && Str(role) in items);
    }
  }

  /** The order and repetition of roles, required or held, make no
      difference. */
  lemma SharesIgnoresOrder(required1: seq<string>, required2: seq<string>,
                           items1: seq<Value>, items2: seq<Value>)
    requires (set r | r in required1) == (set r | r in required2)
    requires (set v | v in items1) == (set v | v in items2)
    ensures Shares(required1, Some(Arr(items1))) == Shares(required2, Some(Arr(items2)))
  {
    var r1, r2 := set r | r in required1, set r | r in required2;
    var v1, v2 := set v | v in items1, set v | v in items2;
    assert (required1 == []) == (required2 == []) by {
      if required1 != [] { assert required1[0] in r1; assert required1[0] in r2; }
      if required2 != [] { assert required2[0] in r2; assert required2[0] in r1; }
    }
    if required1 != [] {
      var b1 := exists role :: role in required1 && Str(role) in items1;
      var b2 := exists role :: role in required2 && Str(role) in items2;
      if b1 {
        var role :| role in required1 && Str(role) in items1;
        assert role in r1 && Str(role) in v1;
        assert role in required2 && Str(role) in items2;
      }
      if b2 {
        var role :| role in required2 && Str(role) in items2;
        assert role in r2 && Str(role) in v2;
        assert role in required1 && Str(role) in items1;
      }
    }
  }

  // ---------------------------------------------------------------- routes

  /** `roles || ['user']` */
  function DefaultRoles(roles: Option<Value>): (r: Value)
    ensures Defined(roles) ==> r == roles.value
    ensures !Defined(roles) ==> r == Arr([Str("user")])
  {
    Or(roles, Arr([Str("user")]))
  }

  /** `POST /users/register`. An existing name gets 400 and nothing is saved;
      otherwise the user is saved with the bcrypt digest of the password and
      the given roles, or `['user']` when none (a falsy value) are given, and
      the client goes home. A missing password makes bcrypt reject: 500. */
  function RegisterResult(users: seq<User<Value>>, username: string, password: Option<string>,
                          roles: Option<Value>, salt: nat, id: string): (r: Registration<Value>)
    ensures FindByName(users, username).Some? ==>
      r == Registration(Respond(400, "User already exists", ""), None)
    ensures r.saved.Some? <==> FindByName(users, username).None? && password.Some?
    ensures r.saved.Some? ==>
      && r.saved.value == User(id, username, Hash(password.value, salt), DefaultRoles(roles))
      && r.reply == Redirect("/", [])
    ensures r.saved.None? && FindByName(users, username).None? ==>
      r.reply == Respond(500, "Error registering user", "")
  {
    if FindByName(users, username).Some? then
      Registration(Respond(400, "User already exists", ""), None)
    else if password.None? then
      Registration(Respond(500, "Error registering user", ""), None)
    else
      Registration(Redirect("/", []),
                   Some(User(id, username, Hash(password.value, salt), DefaultRoles(roles))))
  }

  /** `POST /users/register` against the user table. */
  method Register(table: UserTable<Value>, username: string, password: Option<string>,
                  roles: Option<Value>, salt: nat, id: string) returns (o: Outcome)
    modifies table
    ensures old(table.Valid()) ==> table.Valid()
    ensures o == RegisterResult(old(table.users), username, password, roles, salt, id).reply
    ensures table.users == Saving(old(table.users), RegisterResult(old(table.users), username, password, roles, salt, id).saved)
  {
    if table.Valid() {
      RegisterKeepsNamesUnique(table.users, username, password, roles, salt, id);
    }
    var existing := table.FindOne(username);
    if existing.Some? {
      return Respond(400, "User already exists", "");
    }
    if password.None? {
      return Respond(500, "Error registering user", "");
    }
    table.Save(User(id, username, Hash(password.value, salt), DefaultRoles(roles)));
    o := Redirect("/", []);
  }

  /** Registration keeps names unique, and a saved user's digest accepts
      the password given. */
  lemma RegisterKeepsNamesUnique(users: seq<User<Value>>, username: string, password: Option<string>,
                                 roles: Option<Value>, salt: nat, id: string)
    requires UniqueNames(users)
    ensures var r := RegisterResult(users, username, password, roles, salt, id);
      && UniqueNames(Saving(users, r.saved))
      && (r.saved.Some? ==> Compare(password.value, r.saved.value.password))
  {
    var r := RegisterResult(users, username, password, roles, salt, id);
    if r.saved.Some? {
      AppendKeepsUnique(users, r.saved.value);
    }
  }

  /** The cookie the token travels in. */
  const TokenCookie := "auth_token"

  /** The payload a login signs. */
  function Claims(u: User<Value>): (c: Object)
    ensures c.Keys == {"userId", "username", "roles"}
    ensures c["userId"] == Str(u.id) && c["username"] == Str(u.username) && c["roles"] == u.role
  {
    map["userId" := Str(u.id), "username" := Str(u.username), "roles" := u.role]
  }

  /** The one answer to an unknown name and to a wrong password. */
  const LoginFailure := Respond(400, "Invalid username or password", "")

  /** The cookie a login sets: an hour's token, HTTP-only, same-site strict,
      secure in production, for an hour. */
  function SessionCookie(token: string, production: bool): (k: Cookie)
    ensures k.value == token && k.httpOnly && k.sameSiteStrict && k.secure == production
    ensures k.maxAgeMs == Some(3600000)
  {
    Cookie(token, true, production, true, Some(1000 * 60 * 60))
  }

  /** `POST /users/login`. An unknown name and a wrong password get the same
      400; a missing password makes bcrypt reject (500); otherwise the
      `{ userId, username, roles }` claims are signed for an hour and set in the
      `auth_token` cookie, and the client goes home. */
  function Login(users: seq<User<Value>>, username: string, password: Option<string>,
                 sign: Signer, production: bool): (o: Outcome)
    ensures o.Redirect? <==>
      FindByName(users, username).Some? && password.Some?
      && Compare(password.value, FindByName(users, username).value.password)
    ensures o.Redirect? ==> o == Redirect("/", [SetCookie(TokenCookie,
      SessionCookie(sign(Claims(FindByName(users, username).value), 3600), production))])
    ensures FindByName(users, username).None? ==> o == LoginFailure
    ensures !o.Redirect? ==> o == LoginFailure || o == Respond(500, "Error logging in", "")
  {
    match FindByName(users, username)
    case None => LoginFailure
    case Some(u) =>
      if password.None? then Respond(500, "Error logging in", "")
      else if !Compare(password.value, u.password) then LoginFailure
      else Redirect("/", [SetCookie(TokenCookie, SessionCookie(sign(Claims(u), 3600), production))])
  }

  /** A successful login sets exactly one cookie, `auth_token`: it holds the
      signed claims, is HTTP-only and same-site strict, is secure exactly in
      production, and lives as long as the token (a max age of one hour in
      milliseconds for a token signed for 3600 seconds). */
  lemma LoginCookie(users: seq<User<Value>>, username: string, password: Option<string>,
                    sign: Signer, production: bool)
    requires Login(users, username, password, sign, production).Redirect?
    ensures var o := Login(users, username, password, sign, production);
      && FindByName(users, username).Some?
      && |o.effects| == 1 && o.effects[0].SetCookie? && o.effects[0].name == TokenCookie
      && var k := o.effects[0].cookie;
      && k.value == sign(Claims(FindByName(users, username).value), 3600)
      && k.httpOnly && k.sameSiteStrict && k.secure == production
      && k.maxAgeMs == Some(1000 * 3600)
  {
  }

  /** The login failure does not tell an unknown name from a wrong password. */
  lemma LoginFailureUniform(users: seq<User<Value>>, unknown: string, known: string,
                            password: string, sign: Signer, production: bool)
    requires FindByName(users, unknown).None?
    requires FindByName(users, known).Some? && !Compare(password, FindByName(users, known).value.password)
    ensures Login(users, unknown, Some(password), sign, production)
         == Login(users, known, Some(password), sign, production)
  {
  }

  /** `GET /users/logout`: drop the token and the session cookie and go home. */
  function Logout(): (o: Outcome)
    ensures o.Redirect? && o.location == "/"
    ensures o.effects == [ClearCookie(TokenCookie), ClearCookie("connect.sid")]
  {
    Redirect("/", [ClearCookie(TokenCookie), ClearCookie("connect.sid")])
  }

  /** Register with roles, log in, and send the token as `Bearer <token>`:
      when the token verifies and carries the signed payload, a gate
      requiring any of those roles lets the request through with the
      verified claims. */
  lemma RegisterLoginAuthorize(users: seq<User<Value>>, username: string, password: string,
                               roles: seq<string>, salt: nat, id: string,
                               sign: Signer, verify: Verifier, production: bool, role: string)
    requires FindByName(users, username).None?
    requires role in roles
    requires var u := User(id, username, Hash(password, salt), Arr(seq(|roles|, i requires 0 <= i < |roles| => Str(roles[i]))));
      var t := sign(Claims(u), 3600);
      t != "" && ' ' !in t && Carries(verify(t), Claims(u))
    ensures var r := RegisterResult(users, username, Some(password),
                                    Some(Arr(seq(|roles|, i requires 0 <= i < |roles| => Str(roles[i])))), salt, id);
      var o := Login(Saving(users, r.saved), username, Some(password), sign, production);
      && o.Redirect? && |o.effects| == 1 && o.effects[0].SetCookie?
      && var t := o.effects[0].cookie.value;
      && AuthenticateUser([role], Some("Bearer " + t), verify) == Next(Some(verify(t).claims))
  {
    var items := seq(|roles|, i requires 0 <= i < |roles| => Str(roles[i]));
    var u := User(id, username, Hash(password, salt), Arr(items));
    assert Defined(Some(Arr(items)));
    assert DefaultRoles(Some(Arr(items))) == Arr(items);
    FindAfterAppend(users, u, username);
    CompareHash(password, password, salt);
    var t := sign(Claims(u), 3600);
    BearerOfScheme(t);
    var k :| 0 <= k < |roles| && roles[k] == role;
    assert Str(role) == items[k];
    assert Get(verify(t).claims, "roles") == Some(Arr(items));
    assert Shares([role], Get(verify(t).claims, "roles")) == Some(true);
    var o := Login(Saving(users, Some(u)), username, Some(password), sign, production);
    assert o.effects[0].cookie.value == t;
    BearerAdmits([role], t, verify);
  }

  /** A bearer token that verifies to claims sharing a required role is let
      through with those claims. */
  lemma BearerAdmits(required: seq<string>, t: string, verify: Verifier)
    requires t != "" && ' ' !in t && verify(t).Verified?
    requires Shares(required, Get(verify(t).claims, "roles")) == Some(true)
    ensures AuthenticateUser(required, Some("Bearer " + t), verify) == Next(Some(verify(t).claims))
  {
    BearerOfScheme(t);
  }

  // ---------------------------------------------------------------- the roles the user model keeps

  /** The payload a login signs for a user as models/user.js stores it: the
      schema declares `role` but not `roles`, so the saved user has no
      `roles`, and `roles: undefined` is left out of the token. */
  function ClaimsAsSaved(u: User<Value>): (c: Object)
    ensures c.Keys == {"userId", "username"} && "roles" !in c
  {
    map["userId" := Str(u.id), "username" := Str(u.username)]
  }

  /** With the roles dropped, every gate that requires a role throws on
      `user.roles.includes` instead of admitting or refusing: no registered
      user can pass `authenticateUser`. */
  lemma SavedUserLockedOut(required: seq<string>, header: Option<string>, verify: Verifier, u: User<Value>)
    requires required != []
    requires BearerToken(header).Some? && Carries(verify(BearerToken(header).value), ClaimsAsSaved(u))
    ensures AuthenticateUser(required, header, verify) == Throw("TypeError")
  {
    assert "roles" !in RegisteredClaims;
    assert Get(verify(BearerToken(header).value).claims, "roles").None?;
  }
}
