/** The `User` collection both authentication routers keep (models/user.js),
    with `bcrypt` as a symbolic digest. The role part `R` of a user is left
    generic: routes/auth.js stores a `role` string, routes/userRoutes.js a
    `roles` value. */
module Users {
  import opened Wrappers
  import Http

  /** `bcrypt.hash(password, salt)` kept symbolically: the digest records the
      salt and the password it was made from, and only `Compare` looks inside. */
  datatype Digest = Bcrypt(salt: nat, source: string)

  /** The message `bcrypt` rejects with when it is given no password. */
  const MissingData := "data and salt arguments required"

  function Hash(password: string, salt: nat): Digest {
    Bcrypt(salt, password)
  }

  /** `bcrypt.compare(password, digest)` */
  predicate Compare(password: string, d: Digest) {
    d.source == password
  }

  /** A digest accepts the password it was made from and no other. */
  lemma CompareHash(p: string, q: string, salt: nat)
    ensures Compare(p, Hash(p, salt))
    ensures Compare(q, Hash(p, salt)) <==> q == p
  {
  }

  datatype User<R> = User(id: string, username: string, password: Digest, role: R)

  /** `User.findOne({ username })`: the first stored user with that name. */
  function FindByName<R>(users: seq<User<R>>, name: string): (r: Option<User<R>>)
    ensures r.Some? ==> r.value in users && r.value.username == name
    ensures r.None? <==> forall i :: 0 <= i < |users| ==> users[i].username != name
  {
    if users == [] then None
    else if users[0].username == name then Some(users[0])
    else FindByName(users[1..], name)
  }

  /** No two stored users share a name. No index enforces this; the
      registration routes keep it by looking the name up first. */
  predicate UniqueNames<R>(users: seq<User<R>>) {
    forall i, j :: 0 <= i < j < |users| ==> users[i].username != users[j].username
  }

  /** Once `u` is appended under a name nobody has, looking that name up
      finds `u`, and every other name still finds what it found before. */
  lemma {:induction false} FindAfterAppend<R>(users: seq<User<R>>, u: User<R>, name: string)
    requires FindByName(users, u.username).None?
    ensures FindByName(users + [u], name) ==
      if name == u.username then Some(u) else FindByName(users, name)
  {
    if users == [] {
      assert users + [u] == [u];
    } else {
      assert (users + [u])[1..] == users[1..] + [u];
      FindAfterAppend(users[1..], u, name);
    }
  }

  /** Appending a user under a fresh name keeps names unique. */
  lemma AppendKeepsUnique<R>(users: seq<User<R>>, u: User<R>)
    requires UniqueNames(users) && FindByName(users, u.username).None?
    ensures UniqueNames(users + [u])
  {
    var t := users + [u];
    forall i, j | 0 <= i < j < |t| ensures t[i].username != t[j].username {
      if j == |users| {
        assert t[i] == users[i];
      } else {
        assert t[i] == users[i] && t[j] == users[j];
      }
    }
  }

  /** What a registration route answers and which user, if any, it saves. */
  datatype Registration<R> = Registration(reply: Http.Outcome, saved: Option<User<R>>)

  /** The user table after a registration. */
  function Saving<R>(users: seq<User<R>>, saved: Option<User<R>>): (r: seq<User<R>>)
    ensures saved.None? ==> r == users
    ensures saved.Some? ==> r == users + [saved.value]
  {
    match saved
    case None => users
    case Some(u) => users + [u]
  }

  /** The stored users. */
  class UserTable<R> {
    var users: seq<User<R>>

    /** No two users share a name. The schema has no unique index on
        `username`, so it is the registration routes that keep this, by
        looking the name up before saving. */
    ghost predicate Valid()
      reads this
    {
      UniqueNames(users)
    }

    constructor()
      ensures users == [] && Valid()
    {
      users := [];
    }

    /** `User.findOne({ username })` */
    method FindOne(name: string) returns (r: Option<User<R>>)
      ensures r == FindByName(users, name)
      ensures r.Some? ==> r.value in users && r.value.username == name
    {
      r := FindByName(users, name);
    }

    /** `newUser.save()` */
    method Save(u: User<R>)
      modifies this
      ensures users == old(users) + [u]
    {
      users := users + [u];
    }
  }
}
