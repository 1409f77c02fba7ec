# webFramework listings service, modelled in Dafny

This project models the core of an Express/Mongoose web application. The
application serves the `listingsAndReviews` collection of Airbnb listings
through a JSON API and through server-rendered pages. It also has two
authentication routers and a set of gates in front of the pages.

The model covers:

- **The listing schema** (`Airbnb`, models/airbnb.js). Each declared path is
  either a required string, a required number or an optional value of some
  kind. The module gives the validation a document goes through before it
  is stored, which keeps the declared paths and drops all others.
- **The store** (`DbOperation`, config/db-operation.js). The collection is
  a class over a sequence of listings. Its invariant says that every listing
  conforms to the schema and that the unique indexes on `_id` and
  `listing_url` hold. Insert, lookup, update (`new: true`,
  `runValidators: true`) and delete are methods on it. Each method is tied
  to a pure function of the old collection. The paginated query is a pure
  function: filter by `property_type`, sort by `_id` in binary string order,
  skip `(page - 1) * perPage`, take `perPage`.
- **The gates.** These are:
  - the bearer-token role gate (`UserRoutes.AuthenticateUser`);
  - the admin gate (`AuthenticateAdmin`);
  - `ensureAuthenticated` (`AuthRoutes.EnsureAuthenticated`);
  - the template-user middleware (`App.TemplateUser`).

  Each gate is a function from the token, the verifier's answer and, for
  the role gate, the required roles, to one `Http.Outcome`: continue,
  respond, redirect or throw. The role gate searches a `roles` claim that is
  an array for each required role; one that is a string is searched for
  each role as a substring, as `String.prototype.includes` does; a claim of
  any other kind, a missing one included, makes the gate throw.
- **Registration and login** for both routers (`AuthRoutes`, `UserRoutes`).
  They run over a user table, with bcrypt as a symbolic digest and with
  `jwt.sign` and `jwt.verify` as parameters.
- **The request-shaping helpers** of routes/airbnbRoutes.js and
  utils/utils.js: `pickFields`, the Joi list query, the add-listing
  required-field check and its `listingData`, the amenities split, and the
  card, details and search views with their placeholders.

Parameters stand for what the handlers get from outside:

- `jwt.verify` and `jwt.sign` for a fixed secret and clock (`Http.Verifier`,
  `Http.Signer`);
- bcrypt's random salt and the new ObjectId (`salt`, `id`);
- `parseInt`, `parseFloat`, `new Date` and Joi's number conversion;
- `NODE_ENV === 'production'` (`production`).

app.js and routes/auth.js read `JWT_SECRET` differently. app.js has no
fallback to `'defaultSecretKey'`, so without that variable the two
`ensureAuthenticated` copies are the same function fed different
verifiers.

## Model

| member | source | states |
|---|---|---|
| Json.Or | routes/userRoutes.js:65 | `v \|\| fallback` is `v` when it is truthy and the fallback otherwise; it is truthy iff either operand is, so a truthy fallback always gives a truthy result |
| Strings.Split | routes/airbnbRoutes.js:191 | `split` on one character always yields at least one piece, and no piece contains the separator |
| Strings.JoinSplit | routes/airbnbRoutes.js:191 | joining the pieces of a split with the separator gives back the input |
| Strings.SplitJoin | routes/userRoutes.js:23 | splitting a join of separator-free pieces gives back the pieces |
| Strings.ToLower | routes/auth.js:155 | lower-casing keeps the length, maps each ASCII capital to its small letter and every other character to itself, and leaves no ASCII capital |
| Strings.ToLowerIdempotent | routes/auth.js:155 | lower-casing an already lower-cased name changes nothing |
| Strings.LessTransitive | config/db-operation.js:37 | the binary string order used for `_id` is transitive |
| Strings.LessTotal | config/db-operation.js:37 | any two distinct `_id`s are ordered one way or the other |
| Strings.LessAsymmetric | config/db-operation.js:37 | two `_id`s are never each sorted before the other |
| Strings.LessIrreflexive | config/db-operation.js:37 | no `_id` sorts before itself |
| Utils.Picked | utils/utils.js:1-6 | the picked object has key k iff k is listed and defined in the source, with the source's value |
| Utils.PickFields | utils/utils.js:1-6 | the `reduce` loop builds exactly `Picked`: keys are listed and defined, values are copied, unlisted keys never appear, an empty list gives `{}` |
| Utils.PickedIdempotent | utils/utils.js:1-6 | picking the same fields twice equals picking them once |
| Utils.PickedIgnoresUnlisted | utils/utils.js:1-6 | sources that agree on the listed keys give the same result |
| Airbnb.IdNotInSchema | models/airbnb.js:6 | `_id` is handled apart from the other declared paths |
| Airbnb.SchemaFacts | models/airbnb.js:7-44 | the declared kind of each required path, of `images` (Mixed), of `amenities` (`[String]`) and of `reviews` (`[Object]`, an array of Mixed) |
| Airbnb.ArrayPathsExact | models/airbnb.js:33-44 | `amenities` and `reviews` are exactly the paths declared as arrays, the ones Mongoose gives an implicit `[]` default |
| Airbnb.DocErrors | models/airbnb.js:4-47 | a path is reported iff it is `_id` holding a non-string, or it is declared and its value fails its type or `required` rule |
| Airbnb.Declared | models/airbnb.js:4-47 | the document keeps exactly its declared paths, unchanged |
| Airbnb.FromDoc | config/db-operation.js:20-28 | `new Airbnb(doc).save()` validation succeeds iff no path fails and `_id` is set; all failing paths are reported together; the stored listing conforms to the schema, holds both array paths and keeps the document's `_id` |
| Airbnb.DefaultsOk | config/db-operation.js:20-28 | a document that passes validation still conforms once `[]` is filled in under each array path it leaves undefined |
| Airbnb.ToDoc | config/db-operation.js:48-55 | the document read back holds `_id` and exactly the stored paths, which for a stored listing include both array paths (the version key `__v` aside) |
| Airbnb.RoundTrip | models/airbnb.js:4-47 | validating the document of a stored listing (conforming, with both array paths set) gives back that listing |
| Airbnb.FromDocKeepsDeclared | config/db-operation.js:20-28 | a stored document reads back as its `_id` and its declared paths, each as sent, plus `[]` under each array path it left undefined, and nothing else |
| Airbnb.MissingRequiredRejected | models/airbnb.js:7-34 | a document lacking any required path is rejected, and that path is named |
| Airbnb.OmittingOptionalHarmless | models/airbnb.js:9-44 | dropping an optional path from an accepted document keeps it accepted |
| Airbnb.ListShapes | models/airbnb.js:33-44 | in a stored listing, a non-null `amenities` is a list of strings and a non-null `reviews` is a list |
| Airbnb.UpdateErrors | config/db-operation.js:61-64 | with `runValidators`, exactly the declared paths the update sets to a bad value are reported, plus a non-string `_id` |
| Airbnb.Merge | config/db-operation.js:61-64 | the update keeps `_id`, sets the paths it names, leaves the others untouched and drops undeclared keys; over a conforming listing with no update errors the result conforms |
| DbOperation.InsertById | config/db-operation.js:37 | inserting one listing lengthens the sequence by one |
| DbOperation.SortById | config/db-operation.js:37 | sorting keeps the length |
| DbOperation.InsertPermutes | config/db-operation.js:37 | insertion adds exactly the listing to the multiset |
| DbOperation.SortPermutes | config/db-operation.js:37 | the sort is a permutation of its input |
| DbOperation.InsertSorted | config/db-operation.js:37 | inserting into an `_id`-sorted sequence keeps it sorted |
| DbOperation.SortSorted | config/db-operation.js:37 | the sort's result is in non-decreasing `_id` order |
| DbOperation.SortedDistinctAscending | config/db-operation.js:37 | a sorted sequence with distinct `_id`s is strictly ascending |
| DbOperation.InsertMembers | config/db-operation.js:37 | insertion holds exactly the inserted listing and the listings it was given |
| DbOperation.InsertAscending | config/db-operation.js:37 | inserting a listing with a new `_id` into a strictly ascending sequence keeps it strictly ascending |
| DbOperation.SortAscending | config/db-operation.js:37 | over distinct `_id`s the sort is strictly ascending |
| DbOperation.SortMembers | config/db-operation.js:37 | the sort holds exactly the listings of its input |
| DbOperation.AscendingUnique | config/db-operation.js:37 | two strictly ascending sequences with the same members are equal |
| DbOperation.SortUnique | config/db-operation.js:37 | over distinct `_id`s the sort does not depend on storage order |
| DbOperation.WhereType | config/db-operation.js:33 | `find({ property_type })` keeps exactly the listings of that type, and keeps `_id`s distinct |
| DbOperation.FilterByType | config/db-operation.js:33 | an absent or empty type filters nothing out; any other type keeps exactly the listings having it |
| DbOperation.Window | config/db-operation.js:38-39 | `skip(n).limit(k)` is the slice from n of length `min(k, len - n)`, and empty when n is past the end |
| DbOperation.GetAll | config/db-operation.js:31-45 | the result is the slice starting at `(page-1)*perPage` of the `_id`-sorted, filtered collection |
| DbOperation.GetAllBounded | config/db-operation.js:39 | at most `perPage` listings are returned |
| DbOperation.GetAllMatches | config/db-operation.js:33-36 | every returned listing is stored and, when a type is given, has exactly that `property_type` |
| DbOperation.GetAllAscending | config/db-operation.js:37 | returned listings are in strictly ascending `_id` order |
| DbOperation.NoFilterKeepsAll | config/db-operation.js:33 | with no type, a page large enough returns the whole collection in `_id` order |
| DbOperation.PastLastPage | config/db-operation.js:34-40 | a page whose skip reaches past the matching listings is empty, not an error |
| DbOperation.TwelveListings | config/db-operation.js:34-39 | over 12 listings, page 2 of 5 is the 6th to 10th in `_id` order, and page 10 is empty |
| DbOperation.StorageOrderIrrelevant | config/db-operation.js:36-39 | collections with the same listings, in any storage order, give the same page |
| DbOperation.IndexOf | config/db-operation.js:50 | the position found holds that `_id` and is the first such; none is found iff no listing has it |
| DbOperation.Lookup | config/db-operation.js:50 | `findById` finds a listing iff one has that `_id`, and what it finds is stored under that `_id` |
| DbOperation.LookupStored | models/airbnb.js:6 | under the `_id` index, looking up a stored listing's `_id` finds exactly that listing |
| DbOperation.AddResult | config/db-operation.js:20-28 | an insert passes iff validation passes and neither unique index is hit; validation errors come first, and index hits give a duplicate-key error |
| DbOperation.AddDuplicateIdRejected | models/airbnb.js:6 | an insert with a stored `_id` fails |
| DbOperation.AddDuplicateUrlRejected | models/airbnb.js:7 | an insert with a stored `listing_url` fails whatever its `_id` |
| DbOperation.AddKeepsStoreOk | models/airbnb.js:4-47 | a successful insert keeps the schema and both unique indexes |
| DbOperation.AddThenFind | config/db-operation.js:20-55 | after an insert, `findById` of its `_id` returns its `_id` and declared paths as sent, plus `[]` under each array path the insert left undefined (the version key aside) |
| DbOperation.UpdateResult | config/db-operation.js:58-69 | update validation errors come first; an unknown id gives null; a changed `_id` is refused; a valid update of a stored id gives a duplicate-key error iff the merged listing's `listing_url` is another listing's, and the merged listing otherwise |
| DbOperation.UpdateKeepsStoreOk | config/db-operation.js:61-64 | a successful update keeps the schema and both unique indexes |
| DbOperation.ReplaceKeepsStoreOk | models/airbnb.js:6-7 | replacing a listing by a conforming one with the same `_id` and a `listing_url` no other listing has keeps both unique indexes and the schema |
| DbOperation.UpdateThenFind | config/db-operation.js:61-64 | after an update, `findById` returns the document the update returned |
| DbOperation.Without | config/db-operation.js:76 | removing position i keeps the listings before i and shifts the ones after |
| DbOperation.DeleteRemoves | config/db-operation.js:73-81 | after a delete the `_id` is absent, every other listing is still stored, nothing new appears, and the invariant holds |
| DbOperation.WithoutKeepsStoreOk | models/airbnb.js:6-7 | removing any one listing keeps both unique indexes and the schema |
| DbOperation.Store.constructor | models/airbnb.js:49 | the collection starts empty and valid |
| DbOperation.Store.FindById | config/db-operation.js:48-55 | returns the stored listing with that `_id`, or null, and changes nothing |
| DbOperation.Store.Add | config/db-operation.js:20-28 | appends the validated listing on success, leaves the store unchanged on failure, and keeps the invariant |
| DbOperation.Store.UpdateById | config/db-operation.js:58-69 | on success replaces only that listing with the returned document; otherwise changes nothing; keeps the invariant |
| DbOperation.Store.DeleteById | config/db-operation.js:73-81 | returns the removed listing or null; removes only that listing; keeps the invariant |
| Users.CompareHash | routes/auth.js:186-187 | a digest accepts the password it was made from and no other |
| Users.FindByName | routes/auth.js:143 | `findOne({ username })` finds a user iff one has that name, and what it finds is stored under that name |
| Users.FindAfterAppend | routes/auth.js:143-171 | after saving a user under a fresh name, that name finds the new user and every other name finds what it found before |
| Users.AppendKeepsUnique | routes/auth.js:143-149 | saving under a fresh name keeps names unique |
| Users.Saving | routes/auth.js:170 | the table after a registration gains exactly the saved user, if any |
| Users.UserTable.constructor | models/user.js:3-9 | the user table starts empty, with no two users sharing a name |
| Users.UserTable.FindOne | routes/auth.js:143 | returns the first user with that name, and changes nothing |
| Users.UserTable.Save | routes/auth.js:170 | appends the user |
| AuthRoutes.EnsureAuthenticated | routes/auth.js:113-125 | admits with the decoded claims as `req.user` iff a token is present and verifies; otherwise redirects to `/auth/login` (app.js:178-190 is the same middleware with the app's secret) |
| AuthRoutes.DeriveRole | routes/auth.js:155 | the role is `'admin'` iff the lower-cased name is `'admin'`, and `'user'` otherwise |
| AuthRoutes.DeriveRoleExamples | routes/auth.js:155 | "admin", "Admin" and "ADMIN" are admins; "alice" and "admins" are users |
| AuthRoutes.RegisterResult | routes/auth.js:138-173 | an existing name gets 400 and saves nothing; a missing password gets 500; otherwise the user is saved with the digest and the derived role, and redirected to login |
| AuthRoutes.Register | routes/auth.js:138-173 | the route over the table: replies as `RegisterResult`, saves exactly its user, and keeps names unique in the table |
| AuthRoutes.RegisterKeepsNamesUnique | routes/auth.js:143-162 | registration keeps names unique, and the stored digest accepts the given password |
| AuthRoutes.Claims | routes/auth.js:188-192 | the signed payload is exactly `{ id, username, role }` of the user |
| AuthRoutes.Login | routes/auth.js:182-202 | login succeeds iff the user exists and the password matches the digest; success sets an HTTP-only `authToken` of a one-hour token, with no max age, and redirects home; an unknown user gets 401 "Invalid username or password" |
| AuthRoutes.LoginFailureUniform | routes/auth.js:195-197 | an unknown name and a wrong password get the identical answer |
| AuthRoutes.Logout | routes/auth.js:176-179 | logout clears `authToken` and redirects to `/auth/login` (app.js:220-223 does the same for `GET /auth/logout`) |
| AuthRoutes.RegisterLoginAuthenticate | routes/auth.js:113-202 | register, log in, present the cookie: the gate admits with the verified claims, which hold the user's name and derived role, whenever the verified token carries the signed payload (with any registered claims such as `iat` and `exp` added) |
| UserRoutes.BearerToken | routes/userRoutes.js:22-23 | the token is the second space-separated piece of a non-empty header, when that piece is non-empty |
| UserRoutes.BearerOfScheme | routes/userRoutes.js:22-23 | `Bearer <t>` yields `t` for any non-empty token without spaces |
| UserRoutes.BearerNeedsOneSpace | routes/userRoutes.js:22-23 | `Bearer` with two spaces, or alone, yields no token |
| UserRoutes.Shares | routes/userRoutes.js:33 | no required role means no match; array roles match iff some required role is in them; a value that is neither array nor string throws |
| UserRoutes.AuthenticateUser | routes/userRoutes.js:20-40 | no token gives 401; a failed verification gives 403; a verified token sharing no required role gives 403; roles that cannot be searched throw a TypeError; the request continues with the claims iff the token verifies and the roles match |
| UserRoutes.AdmitWithArrayRoles | routes/userRoutes.js:30-37 | with array roles, the gate admits iff some required role is held |
| UserRoutes.SharesIgnoresOrder | routes/userRoutes.js:33 | order and repetition in either role list make no difference |
| UserRoutes.DefaultRoles | routes/userRoutes.js:65 | the given roles when truthy, else `['user']` |
| UserRoutes.RegisterResult | routes/userRoutes.js:52-74 | an existing name gets 400 "User already exists" and saves nothing; a missing password gets 500; otherwise the digest and the defaulted roles are saved and the client goes home |
| UserRoutes.Register | routes/userRoutes.js:52-74 | the route over the table: replies as `RegisterResult`, saves exactly its user, and keeps names unique in the table |
| UserRoutes.RegisterKeepsNamesUnique | routes/userRoutes.js:56-68 | registration keeps names unique, and the stored digest accepts the given password |
| UserRoutes.Claims | routes/userRoutes.js:112-116 | the signed payload is exactly `{ userId, username, roles }` of the user |
| UserRoutes.Login | routes/userRoutes.js:86-134 | login succeeds iff the user exists and the password matches; success signs the claims for an hour, sets them in the `auth_token` cookie (HTTP-only, same-site strict, secure in production, one hour) and redirects home; an unknown user gets 400 "Invalid username or password" |
| UserRoutes.LoginCookie | routes/userRoutes.js:112-125 | a successful login sets exactly one cookie, `auth_token`, holding the signed claims; it is HTTP-only and same-site strict, secure exactly in production, and its max age of 3600000 ms matches the token's one-hour `expiresIn` |
| UserRoutes.LoginFailureUniform | routes/userRoutes.js:97-109 | an unknown name and a wrong password get the identical 400 |
| UserRoutes.Logout | routes/userRoutes.js:138-158 | logout clears `auth_token` and `connect.sid` and redirects home |
| UserRoutes.RegisterLoginAuthorize | routes/userRoutes.js:20-134 | register with roles, log in, send `Bearer <token>`: a gate requiring one of those roles admits with the verified claims, whenever the verified token carries the signed payload (with any registered claims added) |
| UserRoutes.BearerAdmits | routes/userRoutes.js:20-37 | `Bearer <t>` for a token that verifies to claims sharing a required role continues with exactly those claims |
| UserRoutes.ClaimsAsSaved | models/user.js:3-7 | the payload signed for a user as the schema saves it has no `roles` |
| UserRoutes.SavedUserLockedOut | routes/userRoutes.js:33 | with the roles dropped, every gate requiring a role throws, whatever registered claims the verifier adds |
| AuthenticateAdmin.AuthenticateAdmin | utils/authenticateAdmin.js:3-29 | no token gives 403 "Access denied"; a failed verification gives 403 "Invalid token" with the message; a role other than exactly `'admin'` gives 403; a verified token whose role is exactly `'admin'` continues with `next()` and attaches no user |
| AuthenticateAdmin.AdminIff | utils/authenticateAdmin.js:12-21 | `next` runs iff the token is present, verifies and has role `'admin'`; every other path answers 403 exactly once |
| AuthenticateAdmin.AdminCaseSensitive | utils/authenticateAdmin.js:15-20 | a token with role "Admin" is refused |
| App.TemplateUser | app.js:155-175 | no token continues with no user; a verified token continues with its claims; an expired one clears the cookie and redirects to login; any other failure continues with no user |
| App.TemplateUserStopsOnlyOnExpiry | app.js:162-167 | the middleware stops a request only for an expired token, and attaches only claims the verifier returned |
| App.IntOr | app.js:195-196 | `parseInt(x) \|\| d` keeps a parsed non-zero value and falls back on NaN or 0; as a number the result is exactly the language's `\|\|` (`Json.Or`) applied to the parsed number (NaN when it does not parse) and the default |
| App.HomePaging | app.js:195-196 | `page` falls back to 1 and `perPage` to 5 when missing, unparsable or zero, so neither is ever 0 |
| App.HomePagingKeepsPositive | app.js:195-196 | positive values are kept as given |
| AirbnbRoutes.PositiveInt | routes/airbnbRoutes.js:15-16 | absent gives the default; a sent integer of at least 1 is accepted as itself; what is not a number, not an integer, or not positive is refused with that rule, in that order; only integers of at least 1 are ever accepted |
| AirbnbRoutes.PropertyType | routes/airbnbRoutes.js:17 | an absent `property_type` is fine, a non-empty string is kept as itself, an empty string or a non-string is refused |
| AirbnbRoutes.ValidateListQuery | routes/airbnbRoutes.js:14-18 | a query is accepted iff `page` and `perPage` are positive integers or absent, `property_type` is absent or a non-empty string, and no other key is sent; the accepted values are those parameters (defaults 1 and 10); otherwise the first broken rule, in the order page, perPage, property_type, undeclared key, is reported |
| AirbnbRoutes.ListQueryExamples | routes/airbnbRoutes.js:14-18 | `page=3` gives page 3 of 10; `page=0`, `page=2.5` and an undeclared `limit` are refused with Joi's rule for each |
| AirbnbRoutes.ApiList | routes/airbnbRoutes.js:37-51 | a rejected query gives 400 with `{ message }` holding Joi's message; otherwise 200 with exactly the documents of the page |
| AirbnbRoutes.ApiListRejectsWithoutStore | routes/airbnbRoutes.js:38-41 | a rejected query gives the same 400 whatever the store holds |
| AirbnbRoutes.ApiListDefaults | routes/airbnbRoutes.js:14-18 | an empty query means page 1, 10 per page, no type |
| AirbnbRoutes.ApiAdd | routes/airbnbRoutes.js:27-34 | the route over the store: 201 with `{ message, result }` and the insert exactly when `addNewAirBnB` succeeds, else 500 "Failed to add Airbnb" and no change |
| AirbnbRoutes.ApiGetById | routes/airbnbRoutes.js:54-69 | 404 `{ message: "Airbnb not found" }` when no listing has the id, else 200 with it; 200 iff the id is stored |
| AirbnbRoutes.AddThenGet | routes/airbnbRoutes.js:27-69 | the `result` that `POST /api` answers with on success is exactly what `GET /api/:id` then returns for the new listing |
| AirbnbRoutes.ImageUrl | routes/airbnbRoutes.js:81 | `images.picture_url` when truthy, else the default image; never falsy |
| AirbnbRoutes.Truncate | routes/airbnbRoutes.js:84 | at most 103 characters: the first 100 (or fewer) of the input, then `...`; a short input is a prefix of the result |
| AirbnbRoutes.TruncateKeepsPrefix | routes/airbnbRoutes.js:84 | each of the first 100 characters is kept |
| AirbnbRoutes.Card | routes/airbnbRoutes.js:79-86 | the card has id, image, title (or "No Title Available") and the cut description (or "No Description Available"); it throws only on a truthy non-string description |
| AirbnbRoutes.CardOfStoredListing | routes/airbnbRoutes.js:79-86 | a conforming listing always has a card, whose description is its own, cut to at most 103 characters |
| AirbnbRoutes.Home | routes/airbnbRoutes.js:74-92 | with defaults 1 and 12, renders one card per listing of the page, or 500 when a card throws |
| AirbnbRoutes.HomeOfStore | routes/airbnbRoutes.js:74-92 | over a valid store the home page always renders, with at most `perPage` cards |
| AirbnbRoutes.Amenities | routes/airbnbRoutes.js:191 | the stored list holds the comma-split pieces of the input, as strings |
| AirbnbRoutes.AmenitiesRoundTrip | routes/airbnbRoutes.js:191 | no piece contains `,`, the pieces join back to the input, and the list is what `[String]` accepts |
| AirbnbRoutes.ListingData | routes/airbnbRoutes.js:159-202 | `listingData` exists iff no split throws; it holds only `_id` and declared paths, the form's `_id`, and each path's value as the route converts it (a `parseInt` that gives no number becomes NaN) |
| AirbnbRoutes.ListingDataKeepsFields | routes/airbnbRoutes.js:161-202 | strings and objects pass through unchanged; `accommodates` goes through `parseInt` and `price` through `parseFloat` |
| AirbnbRoutes.ListingDataAmenities | routes/airbnbRoutes.js:191 | a truthy string amenities is stored split and schema-valid; an absent or falsy one stays absent; any other truthy value fails the route before the insert |
| AirbnbRoutes.AddListing | routes/airbnbRoutes.js:99-215 | any of the 8 fields falsy re-renders "Please fill in all required fields." with no insert; otherwise inserts `listingData` and says "Listing added successfully!" or "Failed to add listing. Please try again." |
| AirbnbRoutes.Details | routes/airbnbRoutes.js:220-248 | 404 "Listing not found" for an unknown id, else the selected fields as stored and the image |
| AirbnbRoutes.PlaceholderKeys | routes/airbnbRoutes.js:265-279 | `_id`, `listing_url` and the image have no placeholder |
| AirbnbRoutes.SearchView | routes/airbnbRoutes.js:265-279 | each display field shows its value when truthy, else its placeholder; `_id`, `listing_url` and the image are shown too |
| AirbnbRoutes.SearchPlaceholders | routes/airbnbRoutes.js:268-277 | a falsy display field shows its fixed placeholder, and a truthy one shows as stored |
| AirbnbRoutes.Search | routes/airbnbRoutes.js:256-285 | an absent or unknown id renders "Listing not found", else the search view |
| AirbnbRoutes.UpdateFormAsApi | routes/airbnbRoutes.js:292-302 | the edit form shows the listing exactly as `GET /api/:id` returns it, and "Listing not found" exactly when that route answers 404 |
| AirbnbRoutes.UpdateThenForm | routes/airbnbRoutes.js:292-317 | after a successful update, which says "Listing updated successfully", opening the edit form again shows the listing the update showed |
| AirbnbRoutes.UpdateListing | routes/airbnbRoutes.js:304-317 | the route over the store: a success replaces that listing with the updated one; a rejected update and an unknown id both render "Failed to update listing" and leave the store unchanged |
| AirbnbRoutes.DeleteListing | routes/airbnbRoutes.js:325-338 | with an unknown id nothing changes; with a stored one exactly that listing is removed; afterwards the id is absent and all other listings remain |
| AirbnbRoutes.DeleteReplyIgnoresListing | routes/airbnbRoutes.js:329-334 | a successful delete answers the same whichever listing was removed, and differently from a failed one |
| AirbnbRoutes.DeleteTwice | routes/airbnbRoutes.js:325-338 | deleting a stored id succeeds once, and deleting it again renders "No listing found with the provided ID." |

## Findings

| source | as written | input that shows it | evidently intended | confidence | as-written member | corrected member |
|---|---|---|---|---|---|---|
| routes/userRoutes.js:65 | `roles` is saved on a `User` whose schema (models/user.js:3-7) declares only `role`, so it is dropped, and the login token at line 113 has no `roles` | register `{ username: "a", password: "p", roles: ["admin"] }`, log in, call a route behind `authenticateUser(["admin"])` with the token: `user.roles.includes` throws a TypeError | the saved user keeps its roles, and a gate requiring one of them admits | not executed; medium (follows from Mongoose's strict schemas) | UserRoutes.SavedUserLockedOut | UserRoutes.RegisterLoginAuthorize |

The rest of the model follows the router's own user shape: `User<Value>`
with the roles kept, as the corrected row states.

## Left out

- Database connection, server start-up and logging: `mongoose.connect`, `app.listen`, `process.exit` and `console` are I/O.
- Rendering, static files, cors, cookie-parser and method-override: a rendered page is its view name and locals.
- JWT signing, verification and expiry clocks: these are the `Http.Signer` and `Http.Verifier` parameters. The end-to-end lemmas assume that the verifier accepts the token it was given at login: the decoded claims then hold the signed payload, possibly with registered claims such as `iat` and `exp` added (`Http.Carries`).
- bcrypt: the digest is symbolic. Hash collisions and timing are not modelled.
- Users.CompareHash: a digest accepts only the exact password it was made from. Real bcrypt reads only the first 72 bytes of a password, so a digest of a longer password also accepts any password with the same first 72 bytes.
- `generateApiKey` (routes/userRoutes.js:12-14): it draws random bytes and is never called.
- `parseFloat`, `new Date` and Joi's string-to-number conversion: these are parameters, so floating-point parsing is not modelled.
- Dates: the `Date` paths (`last_scraped`, `calendar_last_scraped`, `first_review`, `last_review`) accept any string or number. Mongoose casts them: a string that is not a date, such as `"tomorrow"`, is a CastError, so the insert fails and `POST /api` answers 500; a valid one is stored and read back as an ISO date, not as sent.
- Joi internals: only the accept/reject outcome and the first error of the list query are modelled. Unsafe-number checks are not. Which undeclared key is reported first, when there are several, is left open.
- Mongoose casting: a value of the wrong JavaScript type fails validation. A numeric string for a `Number` path, for example, is not converted first, as Mongoose would do. So updates posted from the HTML form with numeric strings are refused by the model, while Mongoose would accept them. Likewise a single value for an array path (`amenities`, `reviews`) is refused, where Mongoose would wrap it in an array.
- Airbnb.DocErrors: `_id: null` is reported as a failing `_id`. Mongoose's String cast keeps `null`, and `save()` refuses only an `_id` that is `undefined`, so it would store a listing whose `_id` is null. The model keeps `_id` a string, which is what the `_id` order and lookups run over.
- Airbnb.FromDoc: Mongoose's `minimize` is not modelled. On save it drops empty objects, such as `host: {}` or an empty object nested in a Mixed value, so such a path is stored and read back without it, while the model keeps it.
- Airbnb.RoundTrip: it holds as stated in the model. In Mongoose a listing holding an empty object does not survive the round trip, because of `minimize` (see Airbnb.FromDoc).
- Airbnb.FromDocKeepsDeclared: a declared path holding an empty object, or containing one, does not read back as sent in Mongoose, because of `minimize` (see Airbnb.FromDoc).
- DbOperation.AddThenFind: the same `minimize` exception as Airbnb.FromDocKeepsDeclared.
- Airbnb.ToDoc: the version key `__v` that `save()` adds to documents inserted by the application is not part of the model, so such documents read back, and leave the JSON API, without it.
- MongoDB's unique indexes are assumed built; the race between two concurrent inserts is not modelled.
- DbOperation.UpdateResult: an update that sets `_id` to the same value is allowed and a different one is refused. Whether Mongoose strips `_id` from the update first is not modelled.
- The `err.message` detail of 500 answers: the store's error is not turned into text; only the fixed message is kept.
- The home page's image-first sort (app.js:202-203): its comparator is not a consistent order, so the result depends on the engine.
- AirbnbRoutes.Home: requires page and perPage to be at least 1 and takes them already parsed, so the raw query strings of the UI home route (routes/airbnbRoutes.js:75-78) are not modelled. Below 1 the source passes the values on to db-operation.js:34-39 unchanged: `perPage=0` becomes `limit(0)`, which MongoDB reads as no limit, so every matching listing comes back; `page=0` gives a negative `skip`, which MongoDB refuses, so the route answers 500. Both readings depend on the database driver, which is not part of this model.
- app.js home listing itself (app.js:193-211): only its `page` and `perPage` defaults are modelled.
- `req.session.destroy` (routes/userRoutes.js:145-157): session-store I/O. Only the two cleared cookies and the redirect are kept.
- Commented-out code (app.js:1-119, routes/auth.js:1-101), including the refresh-token route (routes/auth.js:10-30), which is not live.
- The 404 handler and the global error handler (app.js:226-237): they only render error pages.
- Console logging throughout.
- The validation of `/api/:id` (routes/airbnbRoutes.js:55-58): a route parameter is always a non-empty string, so it never fails. Non-string ids are not modelled.
- A request body without `username`: the model takes the name as a string. Mongoose drops an `undefined` filter value, so `findOne({})` would then match any user.
- AirbnbRoutes.DeleteListing: a form without `id` is modelled as deleting nothing. `findByIdAndDelete(undefined)` filters on `{ _id: undefined }`, and if Mongoose drops that value as it does for `findOne`, the filter is `{}` and some listing is deleted with "Listing deleted successfully!". Which one depends on the database's natural order, which the model does not have.
- `Strings.ToLower` handles ASCII only. For the test against `'admin'` this is exact: no non-ASCII character lower-cases to exactly one of `a`, `d`, `m`, `i`, `n`, so a name holding one never lower-cases to `'admin'`.
- Strings are sequences of code points, so `substring(0, 100)` counts code points rather than UTF-16 units.
- `pickFields` on keys inherited through the prototype chain: objects are plain maps.
