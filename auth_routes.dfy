/** routes/auth.js: the cookie-based router mounted at `/auth`, and its
    `ensureAuthenticated` middleware. Users carry a single `role` string. */
module AuthRoutes {
  import opened Wrappers
  import opened Json
  import opened Strings
  import opened Http
  import opened Users

  /** The cookie the token travels in. */
  const TokenCookie := "authToken"

  /** `ensureAuthenticated`: a present token that verifies lets the request
      through with the decoded claims as `req.user`; anything else redirects
      to the login page. app.js declares the same middleware again, with its
      own secret, which here is just another `verify`. */
  function EnsureAuthenticated(token: Option<string>, verify: Verifier): (o: Outcome)
    ensures o.Next? <==> Present(token) && verify(token.value).Verified?
    ensures o.Next? ==> o.user == Some(verify(token.value).claims)
    ensures !o.Next? ==> o == Redirect("/auth/login", [])
  {
    if Present(token) then
      match verify(token.value)
      case Verified(claims) => Next(Some(claims))
      case Rejected(_, _) => Redirect("/auth/login", [])
    else Redirect("/auth/login", [])
  }

  /** `username.toLowerCase() === 'admin' ? 'admin' : 'user'` */
  function DeriveRole(username: string): (r: string)
    ensures r == "admin" <==> ToLower(username) == "admin"
    ensures r != "admin" ==> r == "user"
  {
    if ToLower(username) == "admin" then "admin" else "user"
  }

  /** The derivation ignores case: "Admin" and "ADMIN" are admins too, and
      any other name is a plain user. */
  lemma DeriveRoleExamples()
    ensures DeriveRole("admin") == "admin"
    ensures DeriveRole("Admin") == "admin"
    ensures DeriveRole("ADMIN") == "admin"
    ensures DeriveRole("alice") == "user"
    ensures DeriveRole("admins") == "user"
  {
    assert ToLower("Admin") == "admin" by {
      assert ToLower("Admin")[0] == LowerChar('A');
    }
    assert ToLower("ADMIN") == "admin" by {
      assert forall i :: 0 <= i < 5 ==> ToLower("ADMIN")[i] == LowerChar("ADMIN"[i]);
    }
    assert ToLower("alice")[1] == 'l';
  }

  /** `POST /auth/register`. An existing name gets 400 and nothing is saved;
      otherwise the password is hashed (a missing one makes bcrypt reject,
      which the route answers with 500), the role derived from the name, the
      user saved and the client sent to the login page. `salt` and `id`
      stand for bcrypt's random salt and the new ObjectId. */
  function RegisterResult(users: seq<User<string>>, username: string, password: Option<string>,
                          salt: nat, id: string): (r: Registration<string>)
    ensures FindByName(users, username).Some? ==>
      r == Registration(Respond(400, "User already exists", "Please choose a different username"), None)
    ensures r.saved.Some? <==> FindByName(users, username).None? && password.Some?
    ensures r.saved.Some? ==>
      && r.saved.value == User(id, username, Hash(password.value, salt), DeriveRole(username))
      && r.reply == Redirect("/auth/login", [])
    ensures FindByName(users, username).None? && password.None? ==>
      r.reply == Respond(500, "Failed to register user", MissingData)
  {
    if FindByName(users, username).Some? then
      Registration(Respond(400, "User already exists", "Please choose a different username"), None)
    else if password.None? then
      Registration(Respond(500, "Failed to register user", MissingData), None)
    else
      Registration(Redirect("/auth/login", []),
                   Some(User(id, username, Hash(password.value, salt), DeriveRole(username))))
  }

  /** `POST /auth/register` against the user table. */
  method Register(table: UserTable<string>, username: string, password: Option<string>,
                  salt: nat, id: string) returns (o: Outcome)
    modifies table
    ensures old(table.Valid()) ==> table.Valid()
    ensures o == RegisterResult(old(table.users), username, password, salt, id).reply
    ensures table.users == Saving(old(table.users), RegisterResult(old(table.users), username, password, salt, id).saved)
  {
    if table.Valid() {
      RegisterKeepsNamesUnique(table.users, username, password, salt, id);
    }
    var existing := table.FindOne(username);
    if existing.Some? {
      return Respond(400, "User already exists", "Please choose a different username");
    }
    if password.None? {
      return Respond(500, "Failed to register user", MissingData);
    }
    table.Save(User(id, username, Hash(password.value, salt), DeriveRole(username)));
    o := Redirect("/auth/login", []);
  }

  /** Registration never gives two users the same name, and the password is
      stored only as a digest that accepts it. */
  lemma RegisterKeepsNamesUnique(users: seq<User<string>>, username: string, password: Option<string>,
                                 salt: nat, id: string)
    requires UniqueNames(users)
    ensures var r := RegisterResult(users, username, password, salt, id);
      && UniqueNames(Saving(users, r.saved))
      && (r.saved.Some? ==> Compare(password.value, r.saved.value.password))
  {
    var r := RegisterResult(users, username, password, salt, id);
    if r.saved.Some? {
      AppendKeepsUnique(users, r.saved.value);
    }
  }

  /** The payload a login signs. */
  function Claims(u: User<string>): (c: Object)
    ensures c.Keys == {"id", "username", "role"}
    ensures c["id"] == Str(u.id) && c["username"] == Str(u.username) && c["role"] == Str(u.role)
  {
    map["id" := Str(u.id), "username" := Str(u.username), "role" := Str(u.role)]
  }

  /** The one answer to an unknown name and to a wrong password. */
  const LoginFailure := Respond(401, "Invalid username or password", "")

  /** `POST /auth/login`. The stored user under that name whose digest
      accepts the password gets a one-hour token in the `authToken` cookie
      and goes home; an unknown name and a wrong password get the same 401;
      a missing password makes bcrypt reject, answered with 500. */
  function Login(users: seq<User<string>>, username: string, password: Option<string>,
                 sign: Signer): (o: Outcome)
    ensures o.Redirect? <==>
      FindByName(users, username).Some? && password.Some?
      && Compare(password.value, FindByName(users, username).value.password)
    ensures o.Redirect? ==> o == Redirect("/", [SetCookie(TokenCookie,
      Cookie(sign(Claims(FindByName(users, username).value), 3600), true, false, false, None))])
    ensures FindByName(users, username).None? ==> o == LoginFailure
    ensures !o.Redirect? ==> o == LoginFailure || o == Respond(500, "An error occurred during login", "")
  {
    match FindByName(users, username)
    case None => LoginFailure
    case Some(u) =>
      if password.None? then Respond(500, "An error occurred during login", "")
      else if Compare(password.value, u.password) then
        Redirect("/", [SetCookie(TokenCookie, Cookie(sign(Claims(u), 3600), true, false, false, None))])
      else LoginFailure
  }

  /** The login failure does not tell an unknown name from a wrong password. */
  lemma LoginFailureUniform(users: seq<User<string>>, unknown: string, known: string,
                            password: string, sign: Signer)
    requires FindByName(users, unknown).None?
    requires FindByName(users, known).Some? && !Compare(password, FindByName(users, known).value.password)
    ensures Login(users, unknown, Some(password), sign) == Login(users, known, Some(password), sign)
  {
  }

  /** `POST /auth/logout` (and app.js's `GET /auth/logout`): drop the token
      cookie and go to the login page. */
  function Logout(): (o: Outcome)
    ensures o.Redirect? && o.location == "/auth/login" && o.effects == [ClearCookie(TokenCookie)]
  {
    Redirect("/auth/login", [ClearCookie(TokenCookie)])
  }

  /** Register under a new name, log in with the same password, and present
      the cookie the login set: when the (never empty) token verifies and
      carries the payload that was signed, `ensureAuthenticated` lets the
      request through with the verified claims: that user's name and the
      role derived from it. */
  lemma RegisterLoginAuthenticate(users: seq<User<string>>, username: string, password: string,
                                  salt: nat, id: string, sign: Signer, verify: Verifier)
    requires FindByName(users, username).None?
    requires var u := User(id, username, Hash(password, salt), DeriveRole(username));
      sign(Claims(u), 3600) != "" && Carries(verify(sign(Claims(u), 3600)), Claims(u))
    ensures var r := RegisterResult(users, username, Some(password), salt, id);
      var o := Login(Saving(users, r.saved), username, Some(password), sign);
      && o.Redirect? && |o.effects| == 1 && o.effects[0].SetCookie?
      && var a := EnsureAuthenticated(Some(o.effects[0].cookie.value), verify);
      && a.Next? && a.user.Some?
      && a.user.value == verify(o.effects[0].cookie.value).claims
      && "username" in a.user.value && "role" in a.user.value
      && a.user.value["username"] == Str(username)
      && a.user.value["role"] == Str(DeriveRole(username))
  {
    var u := User(id, username, Hash(password, salt), DeriveRole(username));
    var r := RegisterResult(users, username, Some(password), salt, id);
    assert r.saved == Some(u);
    FindAfterAppend(users, u, username);
    CompareHash(password, password, salt);
  }
}
