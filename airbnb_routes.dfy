/** routes/airbnbRoutes.js: the JSON API and the server-rendered pages over
    the listing store. Each handler is the reply it builds from the store's
    answer; the handlers that write go through `DbOperation.Store`. */
module AirbnbRoutes {
  import opened Wrappers
  import opened Json
  import opened Strings
  import opened Airbnb
  import opened DbOperation
  import Utils

  /** `res.status(status).json(body)` or `res.status(status).render(view, locals)`. */
  datatype Reply =
    | Json(status: nat, body: Value)
    | Render(status: nat, view: string, locals: Object)

  function Message(m: string): (v: Value)
    ensures v.Obj? && v.fields == map["message" := Str(m)]
  {
    Obj(map["message" := Str(m)])
  }

  // ---------------------------------------------------------------- API list query

  /** The rule a query parameter broke, reported the way Joi words it. */
  datatype QueryError =
    | NotANumber(key: string)
    | NotAnInteger(key: string)
    | NotPositive(key: string)
    | NotAString(key: string)
    | EmptyString(key: string)
    | NotAllowed(key: string)

  function ErrorMessage(e: QueryError): string {
    var quoted := "\"" + e.key + "\"";
    match e
    case NotANumber(_) => quoted + " must be a number"
    case NotAnInteger(_) => quoted + " must be an integer"
    case NotPositive(_) => quoted + " must be a positive number"
    case NotAString(_) => quoted + " must be a string"
    case EmptyString(_) => quoted + " is not allowed to be empty"
    case NotAllowed(_) => quoted + " is not allowed"
  }

  /** The number Joi's `number()` reads from a query parameter: a number as
      it is, a string through `toNumber` (`None` when it is not a number), and
      `None` for anything else. */
  function QueryNumber(value: Value, toNumber: string -> Option<real>): Option<real> {
    match value
    case Num(n) => Some(n)
    case Str(s) => toNumber(s)
    case _ => None
  }

  /** `Joi.number().integer().positive().default(fallback)` on one parameter:
      the number must be read, then be an integer, then be positive, and the
      first rule broken is reported. */
  function PositiveInt(key: string, v: Option<Value>, fallback: int,
                       toNumber: string -> Option<real>): (r: Result<int, QueryError>)
    requires fallback >= 1
    ensures v.None? ==> r == Ok(fallback)
    ensures r.Ok? ==> r.value >= 1
    ensures r.Ok? && v.Some? ==> QueryNumber(v.value, toNumber) == Some(r.value as real)
    ensures forall n: int :: n >= 1 && v.Some? && QueryNumber(v.value, toNumber) == Some(n as real) ==> r == Ok(n)
    ensures v.Some? && QueryNumber(v.value, toNumber).None? ==> r == Err(NotANumber(key))
    ensures v.Some? && QueryNumber(v.value, toNumber).Some? ==>
      var n := QueryNumber(v.value, toNumber).value;
      && (n.Floor as real != n ==> r == Err(NotAnInteger(key)))
      && (n.Floor as real == n && n <= 0.0 ==> r == Err(NotPositive(key)))
    ensures r.Err? ==> r.error.key == key && !r.error.NotAllowed?
  {
    match v
    case None => Ok(fallback)
    case Some(value) =>
      var n := QueryNumber(value, toNumber);
      if n.None? then Err(NotANumber(key))
      else if n.value.Floor as real != n.value then Err(NotAnInteger(key))
      else if n.value <= 0.0 then Err(NotPositive(key))
      else Ok(n.value.Floor)
  }

  datatype ListQuery = ListQuery(page: int, perPage: int, propertyType: Option<string>)

  const QueryKeys: set<string> := {"page", "perPage", "property_type"}

  /** `Joi.string().optional()` on `property_type`: absent is fine, a
      non-empty string is kept, the empty string and non-strings are refused. */
  function PropertyType(v: Option<Value>): (r: Result<Option<string>, QueryError>)
    ensures r == Ok(None) <==> v.None?
    ensures r.Ok? && r.value.Some? <==> v.Some? && v.value.Str? && v.value.s != ""
    ensures r.Ok? && r.value.Some? ==> v == Some(Str(r.value.value))
    ensures v.Some? && v.value.Str? && v.value.s == "" ==> r == Err(EmptyString("property_type"))
    ensures v.Some? && !v.value.Str? ==> r == Err(NotAString("property_type"))
  {
    match v
    case None => Ok(None)
    case Some(Str(s)) => if s == "" then Err(EmptyString("property_type")) else Ok(Some(s))
    case Some(_) => Err(NotAString("property_type"))
  }

  /** `querySchema.validate(req.query)`: the three declared parameters in
      order, then any undeclared one. Joi stops at the first error. */
  ghost function ValidateListQuery(query: Object, toNumber: string -> Option<real>): (r: Result<ListQuery, QueryError>)
    ensures var page := PositiveInt("page", Get(query, "page"), 1, toNumber);
      var perPage := PositiveInt("perPage", Get(query, "perPage"), 10, toNumber);
      var propertyType := PropertyType(Get(query, "property_type"));
      && (r.Ok? <==> page.Ok? && perPage.Ok? && propertyType.Ok? && query.Keys <= QueryKeys)
      && (r.Ok? ==> r.value == ListQuery(page.value, perPage.value, propertyType.value))
      && (page.Err? ==> r == Err(page.error))
      && (page.Ok? && perPage.Err? ==> r == Err(perPage.error))
      && (page.Ok? && perPage.Ok? && propertyType.Err? ==> r == Err(propertyType.error))
    ensures r.Ok? ==> r.value.page >= 1 && r.value.perPage >= 1
    ensures r.Ok? && "page" !in query ==> r.value.page == 1
    ensures r.Ok? && "perPage" !in query ==> r.value.perPage == 10
    ensures r.Ok? ==> (r.value.propertyType.Some? <==> "property_type" in query)
    ensures r.Ok? && r.value.propertyType.Some? ==>
      query["property_type"] == Str(r.value.propertyType.value) && r.value.propertyType.value != ""
    ensures r.Err? && r.error.NotAllowed? ==> r.error.key in query && r.error.key !in QueryKeys
  {
    var page := PositiveInt("page", Get(query, "page"), 1, toNumber);
    var perPage := PositiveInt("perPage", Get(query, "perPage"), 10, toNumber);
    var propertyType := PropertyType(Get(query, "property_type"));
    if page.Err? then Err(page.error)
    else if perPage.Err? then Err(perPage.error)
    else if propertyType.Err? then Err(propertyType.error)
    else if exists k :: k in query && k !in QueryKeys then
      var k :| k in query && k !in QueryKeys; Err(NotAllowed(k))
    else Ok(ListQuery(page.value, perPage.value, propertyType.value))
  }

  /** A sent positive integer is the page; `page=0`, `page=2.5` and an
      undeclared key are refused. */
  lemma ListQueryExamples(toNumber: string -> Option<real>)
    requires toNumber("3") == Some(3.0) && toNumber("0") == Some(0.0) && toNumber("2.5") == Some(2.5)
    ensures ValidateListQuery(map["page" := Str("3")], toNumber) == Ok(ListQuery(3, 10, None))
    ensures ValidateListQuery(map["page" := Str("0")], toNumber) == Err(NotPositive("page"))
    ensures ValidateListQuery(map["page" := Str("2.5")], toNumber) == Err(NotAnInteger("page"))
    ensures ValidateListQuery(map["limit" := Num(5.0)], toNumber) == Err(NotAllowed("limit"))
  {
    assert (2.5).Floor == 2;
    var q := map["limit" := Num(5.0)];
    assert "limit" in q && "limit" !in QueryKeys;
  }

  /** `GET /api`: a rejected query is 400 with Joi's message; otherwise the
      page of listings as JSON. */
  ghost function ApiList(docs: seq<Listing>, query: Object, toNumber: string -> Option<real>): (r: Reply)
    ensures ValidateListQuery(query, toNumber).Err? ==>
      r == Json(400, Message(ErrorMessage(ValidateListQuery(query, toNumber).error)))
    ensures ValidateListQuery(query, toNumber).Ok? ==>
      var q := ValidateListQuery(query, toNumber).value;
      var page := GetAll(docs, q.page, q.perPage, q.propertyType);
      && r.Json? && r.status == 200 && r.body.Arr?
      && |r.body.items| == |page|
      && forall i :: 0 <= i < |page| ==> r.body.items[i] == Obj(ToDoc(page[i]))
  {
    match ValidateListQuery(query, toNumber)
    case Err(e) => Json(400, Message(ErrorMessage(e)))
    case Ok(q) =>
      var page := GetAll(docs, q.page, q.perPage, q.propertyType);
      Json(200, Arr(seq(|page|, i requires 0 <= i < |page| => Obj(ToDoc(page[i])))))
  }

  /** A rejected query never reaches the store: the reply is the same
      whatever the collection holds. */
  lemma ApiListRejectsWithoutStore(docs1: seq<Listing>, docs2: seq<Listing>, query: Object,
                                   toNumber: string -> Option<real>)
    requires ValidateListQuery(query, toNumber).Err?
    ensures ApiList(docs1, query, toNumber) == ApiList(docs2, query, toNumber)
    ensures ApiList(docs1, query, toNumber).status == 400
  {
  }

  /** An empty query lists the first ten listings. */
  lemma ApiListDefaults(docs: seq<Listing>, toNumber: string -> Option<real>)
    ensures ValidateListQuery(map[], toNumber) == Ok(ListQuery(1, 10, None))
  {
  }

  // ---------------------------------------------------------------- API single listing

  /** `POST /api` with the store's answer to `addNewAirBnB(req.body)`. */
  function ApiAddReply(r: Result<Listing, StoreError>): (reply: Reply)
    ensures reply.Json? && (reply.status == 201 <==> r.Ok?)
    ensures r.Err? ==> reply == Json(500, Message("Failed to add Airbnb"))
    ensures r.Ok? ==> reply.body.Obj? && "result" in reply.body.fields && reply.body.fields["result"] == Obj(ToDoc(r.value))
  {
    match r
    case Ok(l) => Json(201, Obj(map["message" := Str("Airbnb added successfully"), "result" := Obj(ToDoc(l))]))
    case Err(_) => Json(500, Message("Failed to add Airbnb"))
  }

  /** `POST /api`: insert the body as it is. */
  method ApiAdd(store: Store, body: Object) returns (reply: Reply)
    requires store.Valid()
    modifies store
    ensures store.Valid()
    ensures reply == ApiAddReply(AddResult(old(store.docs), body))
    ensures store.docs == if reply.status == 201 then old(store.docs) + [AddResult(old(store.docs), body).value]
                          else old(store.docs)
  {
    var r := store.Add(body);
    reply := ApiAddReply(r);
  }

  /** `GET /api/:id`: the stored listing as JSON, or 404. */
  function ApiGetById(docs: seq<Listing>, id: string): (reply: Reply)
    ensures Lookup(docs, id).None? ==> reply == Json(404, Message("Airbnb not found"))
    ensures Lookup(docs, id).Some? ==> reply == Json(200, Obj(ToDoc(Lookup(docs, id).value)))
    ensures reply.status == 200 <==> exists i :: 0 <= i < |docs| && docs[i].id == id
  {
    match Lookup(docs, id)
    case None => Json(404, Message("Airbnb not found"))
    case Some(l) => Json(200, Obj(ToDoc(l)))
  }

  /** What `POST /api` answers on success is what `GET /api/:id` then
      returns for the new listing's `_id`. */
  lemma AddThenGet(docs: seq<Listing>, body: Object)
    requires StoreOk(docs) && AddResult(docs, body).Ok?
    ensures var l := AddResult(docs, body).value;
      var reply := ApiAddReply(AddResult(docs, body));
      && reply.status == 201
      && ApiGetById(docs + [l], l.id) == Json(200, reply.body.fields["result"])
  {
    var l := AddResult(docs, body).value;
    AddKeepsStoreOk(docs, body);
    LookupStored(docs + [l], |docs|);
  }

  // ---------------------------------------------------------------- cards

  const DefaultImage := "/images/default.png"

  /** `listing.images?.picture_url || '/images/default.png'` */
  function ImageUrl(l: Listing): (v: Value)
    ensures Truthy(v)
    ensures (Get(l.fields, "images").Some? && Get(l.fields, "images").value.Obj?
             && Defined(Get(Get(l.fields, "images").value.fields, "picture_url")))
      ==> v == l.fields["images"].fields["picture_url"]
    ensures !(Get(l.fields, "images").Some? && Get(l.fields, "images").value.Obj?
              && Defined(Get(Get(l.fields, "images").value.fields, "picture_url")))
      ==> v == Str(DefaultImage)
  {
    match Get(l.fields, "images")
    case Some(Obj(images)) => Or(Get(images, "picture_url"), Str(DefaultImage))
    case _ => Str(DefaultImage)
  }

  /** `d.substring(0, 100) + '...'`, on code points. */
  function Truncate(d: string): (r: string)
    ensures |r| <= 103 && |r| == Min(100, |d|) + 3
    ensures r[..|r| - 3] == d[..Min(100, |d|)] && r[|r| - 3..] == "..."
    ensures |d| <= 100 ==> d <= r
  {
    d[..Min(100, |d|)] + "..."
  }

  /** A card keeps the first 100 characters of a description unchanged. */
  lemma TruncateKeepsPrefix(d: string, i: int)
    requires 0 <= i < Min(100, |d|)
    ensures Truncate(d)[i] == d[i]
  {
    assert Truncate(d)[i] == Truncate(d)[..|Truncate(d)| - 3][i];
  }

  /** The card of one listing on the home page, or `None` when building it
      throws: a truthy `description` that is not a string has no
      `substring`. */
  function Card(l: Listing): (r: Option<Value>)
    ensures r.Some? <==> !Defined(Get(l.fields, "description")) || l.fields["description"].Str?
    ensures r.Some? ==> r.value.Obj? && r.value.fields.Keys == {"id", "imageUrl", "title", "description"}
    ensures r.Some? ==> r.value.fields["id"] == Str(l.id) && r.value.fields["imageUrl"] == ImageUrl(l)
    ensures r.Some? ==> r.value.fields["title"] == Or(Get(l.fields, "name"), Str("No Title Available"))
    ensures r.Some? ==>
      r.value.fields["description"] == (if Defined(Get(l.fields, "description")) then Str(Truncate(l.fields["description"].s))
       else Str("No Description Available"))
  {
    var description := Get(l.fields, "description");
    if Defined(description) && !description.value.Str? then None
    else
      Some(Obj(map[
        "id" := Str(l.id),
        "imageUrl" := ImageUrl(l),
        "title" := Or(Get(l.fields, "name"), Str("No Title Available")),
        "description" :=
          if Defined(description) then Str(Truncate(description.value.s)) else Str("No Description Available")]))
  }

  /** A listing the schema admits always has a card whose description is its
      own, cut to at most 103 characters. */
  lemma CardOfStoredListing(l: Listing)
    requires ListingOk(l)
    ensures Card(l).Some?
    ensures var d := l.fields["description"].s;
      Card(l).value.fields["description"] == Str(Truncate(d)) && |Truncate(d)| <= 103
  {
    SchemaFacts();
    assert PathOk(Schema["description"], Get(l.fields, "description"));
  }

  /** `GET /` of the router: the page's cards, or 500 when a card throws.
      Missing `page` and `perPage` default to 1 and 12. */
  function Home(docs: seq<Listing>, page: Option<int>, perPage: Option<int>, propertyType: Option<string>): (reply: Reply)
    requires page.GetOr(1) >= 1 && perPage.GetOr(12) >= 1
    ensures var listings := GetAll(docs, page.GetOr(1), perPage.GetOr(12), propertyType);
      && (reply.status == 200 <==> forall i :: 0 <= i < |listings| ==> Card(listings[i]).Some?)
      && (reply.status == 200 ==>
            && reply.Render? && "listings" in reply.locals
            && reply.locals["listings"].Arr? && |reply.locals["listings"].items| == |listings|
            && forall i :: 0 <= i < |listings| ==> reply.locals["listings"].items[i] == Card(listings[i]).value)
      && (reply.status != 200 ==> reply == Render(500, "listings", map["error" := Str("Failed to fetch listings")]))
  {
    var listings := GetAll(docs, page.GetOr(1), perPage.GetOr(12), propertyType);
    if forall i :: 0 <= i < |listings| ==> Card(listings[i]).Some? then
      Render(200, "listings", map["listings" :=
        Arr(seq(|listings|, i requires 0 <= i < |listings| => Card(listings[i]).value))])
    else Render(500, "listings", map["error" := Str("Failed to fetch listings")])
  }

  /** Over a store that keeps its invariant, the home page always renders,
      with at most `perPage` cards. */
  lemma HomeOfStore(docs: seq<Listing>, page: Option<int>, perPage: Option<int>, propertyType: Option<string>)
    requires StoreOk(docs)
    requires page.GetOr(1) >= 1 && perPage.GetOr(12) >= 1
    ensures Home(docs, page, perPage, propertyType).status == 200
    ensures |Home(docs, page, perPage, propertyType).locals["listings"].items| <= perPage.GetOr(12)
  {
    var listings := GetAll(docs, page.GetOr(1), perPage.GetOr(12), propertyType);
    GetAllMatches(docs, page.GetOr(1), perPage.GetOr(12), propertyType);
    GetAllBounded(docs, page.GetOr(1), perPage.GetOr(12), propertyType);
    forall i | 0 <= i < |listings| ensures Card(listings[i]).Some? {
      assert listings[i] in docs;
      var k :| 0 <= k < |docs| && docs[k] == listings[i];
      CardOfStoredListing(docs[k]);
    }
  }

  // ---------------------------------------------------------------- add-listing

  /** The fields the add-listing form must fill in with truthy values. */
  const FormRequired: seq<string> :=
    ["_id", "listing_url", "name", "description", "property_type", "room_type", "accommodates", "price"]

  predicate Filled(body: Object) {
    forall i :: 0 <= i < |FormRequired| ==> Defined(Get(body, FormRequired[i]))
  }

  /** `amenities.split(',')` as a list of strings. */
  function Amenities(s: string): (v: Value)
    ensures v.Arr? && |v.items| == |Split(s, ',')|
    ensures forall i :: 0 <= i < |v.items| ==> v.items[i] == Str(Split(s, ',')[i])
  {
    var parts := Split(s, ',');
    Arr(seq(|parts|, i requires 0 <= i < |parts| => Str(parts[i])))
  }

  /** The split list holds strings without commas, joins back to the input,
      and is what the schema's `[String]` path accepts. */
  lemma AmenitiesRoundTrip(s: string)
    ensures var v := Amenities(s);
      && (forall i :: 0 <= i < |v.items| ==> v.items[i].Str? && ',' !in v.items[i].s)
      && Join(seq(|v.items|, i requires 0 <= i < |v.items| => v.items[i].s), ',') == s
      && KindOk(TextList, v)
  {
    var v := Amenities(s);
    assert seq(|v.items|, i requires 0 <= i < |v.items| => v.items[i].s) == Split(s, ',');
    JoinSplit(s, ',');
  }

  /** `parseInt(x, 10)`, with `None` for NaN. */
  function IntValue(parsed: Option<int>): (v: Value)
    ensures parsed.None? ==> v == NaN
    ensures parsed.Some? ==> v == Num(parsed.value as real)
  {
    match parsed
    case None => NaN
    case Some(n) => Num(n as real)
  }

  /** The optional numeric paths the route reads with `parseInt`; the
      others it reads with `parseFloat`. */
  const IntPaths: set<string> := {"bedrooms", "beds", "number_of_reviews", "guests_included"}

  /** The value `listingData` holds under a declared path, if any: the
      required strings and the optional strings and objects as the form has
      them; `accommodates` through `parseInt` and `price` through
      `parseFloat`; a truthy optional date through `new Date`, number through
      `parseInt` or `parseFloat`, and string list through `split(',')`, a falsy
      one staying `undefined`. Every declared path of the schema appears in
      `listingData`, and nothing else but `_id`. */
  function FieldValue(k: string, body: Object, parseInt: Value -> Option<int>, parseFloat: Value -> Value,
                      toDate: Value -> Value): Option<Value>
    requires k in Schema
  {
    match Schema[k]
    case RequiredText => Get(body, k)
    case RequiredNumber =>
      var x := Get(body, k).GetOr(Null);
      Some(if k == "accommodates" then IntValue(parseInt(x)) else parseFloat(x))
    case Optional(kind) =>
      if !(kind.Date? || kind.Number? || kind.TextList?) then Get(body, k)
      else if !Defined(Get(body, k)) then None
      else
        var x := body[k];
        match kind
        case Date => Some(toDate(x))
        case Number => Some(if k in IntPaths then IntValue(parseInt(x)) else parseFloat(x))
        case TextList => Some(if x.Str? then Amenities(x.s) else x)
        case _ => None
  }

  /** A truthy string-list value that is not a string: `split` throws on it. */
  predicate Unsplittable(body: Object) {
    exists k :: k in Schema && Schema[k] == Optional(TextList) && Defined(Get(body, k)) && !body[k].Str?
  }

  /** The `listingData` object the add-listing route builds from a filled
      form, or `None` when building it throws. `parseInt`, `parseFloat` and
      `new Date` are parameters. */
  function ListingData(body: Object, parseInt: Value -> Option<int>, parseFloat: Value -> Value,
                       toDate: Value -> Value): (r: Option<Object>)
    ensures r.Some? <==> !Unsplittable(body)
    ensures r.Some? ==> forall k :: k in r.value ==> k == "_id" || k in Schema
    ensures r.Some? ==> Get(r.value, "_id") == Get(body, "_id")
    ensures r.Some? ==> forall k :: k in Schema ==>
      Get(r.value, k) == FieldValue(k, body, parseInt, parseFloat, toDate)
  {
    if Unsplittable(body) then None
    else
      IdNotInSchema();
      var declared := map k | k in Schema && FieldValue(k, body, parseInt, parseFloat, toDate).Some? ::
        FieldValue(k, body, parseInt, parseFloat, toDate).value;
      Some(if "_id" in body then declared["_id" := body["_id"]] else declared)
  }

  /** The form's strings and objects reach the store unchanged, `accommodates`
      is parsed as an integer and `price` as a float. */
  lemma ListingDataKeepsFields(body: Object, parseInt: Value -> Option<int>, parseFloat: Value -> Value,
                               toDate: Value -> Value, k: string)
    requires ListingData(body, parseInt, parseFloat, toDate).Some?
    requires k in Schema && (Schema[k].RequiredText? || Schema[k] == Optional(Text)
                             || Schema[k] == Optional(Mixed) || Schema[k] == Optional(MixedList))
    ensures var d := ListingData(body, parseInt, parseFloat, toDate).value;
      && Get(d, k) == Get(body, k)
      && Get(d, "accommodates") == Some(IntValue(parseInt(Get(body, "accommodates").GetOr(Null))))
      && Get(d, "price") == Some(parseFloat(Get(body, "price").GetOr(Null)))
  {
    SchemaFacts();
    var d := ListingData(body, parseInt, parseFloat, toDate).value;
    assert Get(d, "accommodates") == FieldValue("accommodates", body, parseInt, parseFloat, toDate);
    assert Get(d, "price") == FieldValue("price", body, parseInt, parseFloat, toDate);
  }

  /** A truthy string `amenities` is stored as its comma-split list, which
      the schema's `[String]` path accepts; an absent or falsy one is left
      out; any other truthy value makes the route fail before the insert. */
  lemma ListingDataAmenities(body: Object, parseInt: Value -> Option<int>, parseFloat: Value -> Value,
                             toDate: Value -> Value)
    ensures Defined(Get(body, "amenities")) && !body["amenities"].Str? ==>
      ListingData(body, parseInt, parseFloat, toDate).None?
    ensures ListingData(body, parseInt, parseFloat, toDate).Some? ==>
      var d := ListingData(body, parseInt, parseFloat, toDate).value;
      && (Defined(Get(body, "amenities")) ==> d["amenities"] == Amenities(body["amenities"].s)
                                               && KindOk(TextList, d["amenities"]))
      && (!Defined(Get(body, "amenities")) ==> "amenities" !in d)
  {
    SchemaFacts();
    if ListingData(body, parseInt, parseFloat, toDate).Some? {
      var d := ListingData(body, parseInt, parseFloat, toDate).value;
      assert Get(d, "amenities") == FieldValue("amenities", body, parseInt, parseFloat, toDate);
      if Defined(Get(body, "amenities")) {
        AmenitiesRoundTrip(body["amenities"].s);
      }
    }
  }

  function AddListingView(error: Option<string>, success: Option<string>): Reply {
    Render(200, "addListing",
      if error.Some? then map["error" := Str(error.value)] else map["success" := Str(success.GetOr(""))])
  }

  /** `POST /add-listing`: an unfilled required field re-renders the form
      with an error and inserts nothing; otherwise the built `listingData` is
      inserted and the form re-rendered with the outcome. */
  method AddListing(store: Store, body: Object, parseInt: Value -> Option<int>,
                    parseFloat: Value -> Value, toDate: Value -> Value) returns (reply: Reply)
    requires store.Valid()
    modifies store
    ensures store.Valid()
    ensures !Filled(body) ==>
      reply == AddListingView(Some("Please fill in all required fields."), None) && store.docs == old(store.docs)
    ensures Filled(body) && ListingData(body, parseInt, parseFloat, toDate).None? ==>
      reply == AddListingView(Some("Failed to add listing. Please try again."), None) && store.docs == old(store.docs)
    ensures Filled(body) && ListingData(body, parseInt, parseFloat, toDate).Some? ==>
      var r := AddResult(old(store.docs), ListingData(body, parseInt, parseFloat, toDate).value);
      && (r.Ok? ==> reply == AddListingView(None, Some("Listing added successfully!"))
                    && store.docs == old(store.docs) + [r.value])
      && (r.Err? ==> reply == AddListingView(Some("Failed to add listing. Please try again."), None)
                     && store.docs == old(store.docs))
  {
    if !Filled(body) {
      return AddListingView(Some("Please fill in all required fields."), None);
    }
    var data := ListingData(body, parseInt, parseFloat, toDate);
    if data.None? {
      return AddListingView(Some("Failed to add listing. Please try again."), None);
    }
    var r := store.Add(data.value);
    if r.Ok? {
      reply := AddListingView(None, Some("Listing added successfully!"));
    } else {
      reply := AddListingView(Some("Failed to add listing. Please try again."), None);
    }
  }

  // ---------------------------------------------------------------- details and search

  /** The fields the details page shows, `undefined` staying absent. */
  const DetailFields: seq<string> :=
    ["_id", "listing_url", "summary", "space", "description", "neighborhood_overview",
     "notes", "transit", "accommodates", "bedrooms", "beds"]

  /** `GET /details/:id`: 404 for an unknown id, else the selected fields
      and the image. */
  function Details(docs: seq<Listing>, id: string): (reply: Reply)
    ensures Lookup(docs, id).None? ==> reply == Render(404, "details", map["error" := Str("Listing not found")])
    ensures Lookup(docs, id).Some? ==> reply.Render? && reply.status == 200 && reply.locals.Keys == {"listing"}
    ensures Lookup(docs, id).Some? ==>
      var shown := reply.locals["listing"];
      var l := Lookup(docs, id).value;
      && shown.Obj? && Get(shown.fields, "imageUrl") == Some(ImageUrl(l))
      && Get(shown.fields, "_id") == Some(Str(id))
      && forall k :: k in DetailFields && k != "_id" ==> Get(shown.fields, k) == Get(l.fields, k)
  {
    match Lookup(docs, id)
    case None => Render(404, "details", map["error" := Str("Listing not found")])
    case Some(l) =>
      assert DetailFields[0] == "_id";
      assert forall k :: k in DetailFields ==> k != "imageUrl";
      Render(200, "details", map["listing" := Obj(Utils.Picked(ToDoc(l), DetailFields)["imageUrl" := ImageUrl(l)])])
  }

  /** The placeholders of the search page, one per display field. */
  const Placeholders: map<string, string> := map[
    "name" := "No Name Provided",
    "description" := "No Description Available",
    "summary" := "No Summary Available",
    "space" := "No Space Details",
    "neighborhood_overview" := "No Overview Available",
    "notes" := "No Notes Provided",
    "transit" := "No Transit Info",
    "accommodates" := "N/A",
    "bedrooms" := "N/A",
    "beds" := "N/A"]

  /** The search page's fixed fields have no placeholder. */
  lemma PlaceholderKeys()
    ensures "_id" !in Placeholders && "imageUrl" !in Placeholders && "listing_url" !in Placeholders
  {
  }

  /** The listing as the search page shows it. */
  function SearchView(l: Listing): (v: Object)
    ensures forall k :: k in Placeholders ==> k in v && v[k] == Or(Get(l.fields, k), Str(Placeholders[k]))
    ensures Get(v, "_id") == Some(Str(l.id)) && Get(v, "imageUrl") == Some(ImageUrl(l))
    ensures Get(v, "listing_url") == Get(l.fields, "listing_url")
  {
    var shown := map k | k in Placeholders :: Or(Get(l.fields, k), Str(Placeholders[k]));
    var fixed := map["_id" := Str(l.id), "imageUrl" := ImageUrl(l)];
    var base := if "listing_url" in l.fields then fixed["listing_url" := l.fields["listing_url"]] else fixed;
    PlaceholderKeys();
    base + shown
  }

  /** Each display field the listing leaves falsy shows its placeholder;
      each truthy one shows as stored. */
  lemma SearchPlaceholders(l: Listing, k: string)
    requires k in Placeholders
    ensures !Defined(Get(l.fields, k)) ==> SearchView(l)[k] == Str(Placeholders[k])
    ensures Defined(Get(l.fields, k)) ==> SearchView(l)[k] == l.fields[k]
  {
  }

  /** `GET /search/listing?id=`: an absent or unknown id renders "Listing
      not found". */
  function Search(docs: seq<Listing>, id: Option<string>): (reply: Reply)
    ensures (id.None? || Lookup(docs, id.value).None?) ==>
      reply == Render(200, "searchListing", map["listing" := Null, "error" := Str("Listing not found")])
    ensures (id.Some? && Lookup(docs, id.value).Some?) ==>
      reply == Render(200, "searchListing", map["listing" := Obj(SearchView(Lookup(docs, id.value).value)), "error" := Null])
  {
    if id.None? then Render(200, "searchListing", map["listing" := Null, "error" := Str("Listing not found")])
    else match Lookup(docs, id.value)
      case None => Render(200, "searchListing", map["listing" := Null, "error" := Str("Listing not found")])
      case Some(l) => Render(200, "searchListing", map["listing" := Obj(SearchView(l)), "error" := Null])
  }

  // ---------------------------------------------------------------- update and delete

  /** `GET /update/:id`: the listing to edit, or "Listing not found". */
  function UpdateForm(docs: seq<Listing>, id: string): (reply: Reply)
    ensures Lookup(docs, id).None? ==>
      reply == Render(200, "updateListing", map["listing" := Null, "error" := Str("Listing not found")])
    ensures Lookup(docs, id).Some? ==>
      reply == Render(200, "updateListing", map["listing" := Obj(ToDoc(Lookup(docs, id).value)), "error" := Null])
  {
    match Lookup(docs, id)
    case None => Render(200, "updateListing", map["listing" := Null, "error" := Str("Listing not found")])
    case Some(l) => Render(200, "updateListing", map["listing" := Obj(ToDoc(l)), "error" := Null])
  }

  /** The edit form shows the listing as `GET /api/:id` returns it, and
      says "Listing not found" exactly when that route answers 404. */
  lemma UpdateFormAsApi(docs: seq<Listing>, id: string)
    ensures var form := UpdateForm(docs, id).locals;
      var api := ApiGetById(docs, id);
      && "listing" in form && "error" in form
      && (api.status == 200 ==> form["listing"] == api.body && form["error"] == Null)
      && (api.status != 200 ==> form["listing"] == Null && form["error"] == Str("Listing not found"))
  {
  }

  const UpdateFailed := Render(200, "updateListing", map["error" := Str("Failed to update listing"), "listing" := Null])

  /** `POST /update/:id` with the store's answer: a rejected update and an
      unknown id look alike. */
  function UpdateReply(r: Result<Option<Listing>, StoreError>): (reply: Reply)
    ensures (r.Err? || r.value.None?) ==> reply == UpdateFailed
    ensures r.Ok? && r.value.Some? ==> reply == Render(200, "updateListing",
      map["success" := Str("Listing updated successfully"), "listing" := Obj(ToDoc(r.value.value))])
  {
    match r
    case Ok(Some(l)) => Render(200, "updateListing",
      map["success" := Str("Listing updated successfully"), "listing" := Obj(ToDoc(l))])
    case _ => UpdateFailed
  }

  /** `POST /update/:id`: the form body is the update. */
  method UpdateListing(store: Store, id: string, body: Object) returns (reply: Reply)
    requires store.Valid()
    modifies store
    ensures store.Valid()
    ensures reply == UpdateReply(UpdateResult(old(store.docs), body, id))
    ensures !(UpdateResult(old(store.docs), body, id).Ok? && UpdateResult(old(store.docs), body, id).value.Some?) ==>
      reply == UpdateFailed && store.docs == old(store.docs)
    ensures UpdateResult(old(store.docs), body, id).Ok? && UpdateResult(old(store.docs), body, id).value.Some? ==>
      store.docs == old(store.docs)[IndexOf(old(store.docs), id).value := UpdateResult(old(store.docs), body, id).value.value]
  {
    var r := store.UpdateById(body, id);
    reply := UpdateReply(r);
  }

  /** After a successful update, opening the edit form again shows the
      listing the update's reply showed. */
  lemma UpdateThenForm(docs: seq<Listing>, body: Object, id: string)
    requires StoreOk(docs)
    requires UpdateResult(docs, body, id).Ok? && UpdateResult(docs, body, id).value.Some?
    ensures var after := docs[IndexOf(docs, id).value := UpdateResult(docs, body, id).value.value];
      var reply := UpdateReply(UpdateResult(docs, body, id));
      && Get(reply.locals, "success").Some? && Get(reply.locals, "listing").Some?
      && Get(UpdateForm(after, id).locals, "listing") == Get(reply.locals, "listing")
  {
    var r := UpdateResult(docs, body, id);
    var l := r.value.value;
    var after := docs[IndexOf(docs, id).value := l];
    UpdateThenFind(docs, body, id);
    assert Lookup(after, id) == Some(l);
    assert UpdateReply(r).locals["listing"] == Obj(ToDoc(l));
  }

  const NotDeleted := Render(200, "deleteListing", map["error" := Str("No listing found with the provided ID.")])

  /** `POST /delete` with the store's answer. */
  function DeleteReply(r: Option<Listing>): (reply: Reply)
    ensures r.None? ==> reply == NotDeleted
    ensures r.Some? ==> reply == Render(200, "deleteListing", map["success" := Str("Listing deleted successfully!")])
  {
    if r.None? then NotDeleted
    else Render(200, "deleteListing", map["success" := Str("Listing deleted successfully!")])
  }

  /** The delete reply does not say which listing was removed. */
  lemma DeleteReplyIgnoresListing(a: Listing, b: Listing)
    ensures DeleteReply(Some(a)) == DeleteReply(Some(b))
    ensures DeleteReply(Some(a)) != NotDeleted
  {
    assert "success" in DeleteReply(Some(a)).locals && "success" !in NotDeleted.locals;
  }

  /** Deleting a stored id succeeds once; deleting it again finds nothing. */
  lemma DeleteTwice(docs: seq<Listing>, id: string)
    requires StoreOk(docs) && IndexOf(docs, id).Some?
    ensures DeleteReply(Lookup(docs, id)) != NotDeleted
    ensures DeleteReply(Lookup(Without(docs, IndexOf(docs, id).value), id)) == NotDeleted
  {
    DeleteRemoves(docs, id);
    var l := Lookup(docs, id);
    assert l.Some?;
    assert "success" in DeleteReply(l).locals && "success" !in NotDeleted.locals;
  }

  /** `POST /delete`: the id comes from the form; without one nothing is
      found and nothing deleted. */
  method DeleteListing(store: Store, id: Option<string>) returns (reply: Reply)
    requires store.Valid()
    modifies store
    ensures store.Valid()
    ensures id.None? ==> reply == NotDeleted && store.docs == old(store.docs)
    ensures id.Some? ==> reply == DeleteReply(Lookup(old(store.docs), id.value))
    ensures id.Some? && Lookup(old(store.docs), id.value).None? ==> store.docs == old(store.docs)
    ensures id.Some? && IndexOf(old(store.docs), id.value).Some? ==>
      store.docs == Without(old(store.docs), IndexOf(old(store.docs), id.value).value)
    ensures id.Some? ==>
      && Lookup(store.docs, id.value).None?
      && forall l :: l in old(store.docs) && l.id != id.value ==> l in store.docs
  {
    if id.None? {
      return NotDeleted;
    }
    var r := store.DeleteById(id.value);
    if r.Some? {
      DeleteRemoves(old(store.docs), id.value);
    }
    reply := DeleteReply(r);
  }
}
