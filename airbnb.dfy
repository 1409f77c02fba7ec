/** The `Airbnb` listing schema of the `listingsAndReviews` collection: which
    paths exist, which are required, what kind of value each holds, and the
    validation a document goes through before it is stored. */
module Airbnb {
  import opened Wrappers
  import opened Json

  /** The kinds of value the schema declares for its optional paths. */
  datatype Kind =
    | Text           // String
    | Number         // Number
    | Date           // Date
    | TextList       // [String]
    | Mixed          // Object: a Mixed path, which takes any value
    | MixedList      // [Object]: an array of Mixed values

  /** What the schema declares for a path other than `_id`. */
  datatype PathSpec =
    | RequiredText       // { type: String, required: true }
    | RequiredNumber     // { type: Number, required: true }
    | Optional(kind: Kind)

  /** Every declared path except `_id`, which is handled on its own: it is a
      String, unique, not `required`, and `save()` refuses a document without
      one. (The order of the entries is immaterial.) */
  const Schema: map<string, PathSpec> := map[
    "summary" := Optional(Text), "space" := Optional(Text),
    "neighborhood_overview" := Optional(Text), "notes" := Optional(Text),
    "transit" := Optional(Text), "access" := Optional(Text),
    "interaction" := Optional(Text), "house_rules" := Optional(Text),
    "bed_type" := Optional(Text), "minimum_nights" := Optional(Text),
    "maximum_nights" := Optional(Text), "cancellation_policy" := Optional(Text),
    "last_scraped" := Optional(Date), "calendar_last_scraped" := Optional(Date),
    "first_review" := Optional(Date), "last_review" := Optional(Date),
    "bedrooms" := Optional(Number), "beds" := Optional(Number),
    "number_of_reviews" := Optional(Number), "bathrooms" := Optional(Number),
    "amenities" := Optional(TextList),
    "security_deposit" := Optional(Number), "cleaning_fee" := Optional(Number),
    "extra_people" := Optional(Number), "guests_included" := Optional(Number),
    "images" := Optional(Mixed), "host" := Optional(Mixed),
    "address" := Optional(Mixed), "availability" := Optional(Mixed),
    "review_scores" := Optional(Mixed), "reviews" := Optional(MixedList),
    "listing_url" := RequiredText, "name" := RequiredText,
    "description" := RequiredText, "property_type" := RequiredText,
    "room_type" := RequiredText,
    "accommodates" := RequiredNumber, "price" := RequiredNumber
  ]

  /** `_id` is not among the paths of the map. */
  lemma IdNotInSchema()
    ensures "_id" !in Schema
  {
  }

  /** The facts about individual paths that the handlers rely on. */
  lemma SchemaFacts()
    ensures Schema["listing_url"] == RequiredText && Schema["name"] == RequiredText
    ensures Schema["description"] == RequiredText && Schema["property_type"] == RequiredText
    ensures Schema["room_type"] == RequiredText
    ensures Schema["accommodates"] == RequiredNumber && Schema["price"] == RequiredNumber
    ensures Schema["images"] == Optional(Mixed) && Schema["amenities"] == Optional(TextList)
    ensures Schema["reviews"] == Optional(MixedList)
  {
  }

  /** Whether a kind is an array. Mongoose gives every array path an
      implicit default of `[]`. */
  predicate IsArray(k: Kind) {
    k == TextList || k == MixedList
  }

  /** The declared array paths: a listing Mongoose stores or reads back
      always holds them. */
  const ArrayPaths: set<string> := {"amenities", "reviews"}

  /** Exactly the paths in `ArrayPaths` are declared as arrays. */
  lemma ArrayPathsExact(p: string)
    ensures p in ArrayPaths <==> p in Schema && Schema[p].Optional? && IsArray(Schema[p].kind)
  {
  }

  /** A stored listing: its `_id` and the other declared paths it sets. */
  datatype Listing = Listing(id: string, fields: map<string, Value>)

  predicate KindOk(k: Kind, v: Value) {
    match k
    case Text => v.Str?
    case Number => v.Num?
    case Date => v.Str? || v.Num?
    case TextList => v.Arr? && forall i :: 0 <= i < |v.items| ==> v.items[i].Str?
    case Mixed => true
    case MixedList => v.Arr?
  }

  /** Whether the value a document gives a path (None for `undefined`) passes
      the path's cast and its `required` validator: a required String must be a
      non-empty string, a required Number a number, and an optional path may be
      left out or set to null. */
  predicate PathOk(spec: PathSpec, v: Option<Value>) {
    match spec
    case RequiredText => v.Some? && v.value.Str? && v.value.s != ""
    case RequiredNumber => v.Some? && v.value.Num?
    case Optional(k) => v.None? || v.value.Null? || KindOk(k, v.value)
  }

  /** `_id` may be absent here (that is refused later, by `save`) but, when
      present, must be a string. */
  predicate IdOk(v: Option<Value>) {
    v.None? || v.value.Str?
  }

  /** The failing paths of a whole document, as a ValidationError lists them. */
  function DocErrors(doc: Object): (r: set<string>)
    ensures forall p :: p in r <==>
      (p == "_id" && !IdOk(Get(doc, p))) || (p in Schema && !PathOk(Schema[p], Get(doc, p)))
  {
    (if IdOk(Get(doc, "_id")) then {} else {"_id"})
      + set p | p in Schema && !PathOk(Schema[p], Get(doc, p))
  }

  /** Why a write is refused. */
  datatype StoreError =
    | Invalid(paths: set<string>)   // a validation error, with the failing paths
    | MissingId                     // the document has no `_id`
    | DuplicateKey                  // a unique index (`_id` or `listing_url`) is violated
    | ImmutableId                   // an update would change `_id`

  /** A listing as the schema admits it and Mongoose stores it: only
      declared paths, each passing its validator, the array paths set. */
  predicate ListingOk(l: Listing) {
    && (forall p :: p in l.fields ==> p in Schema)
    && (forall p :: p in Schema ==> PathOk(Schema[p], Get(l.fields, p)))
    && (forall p :: p in ArrayPaths ==> p in l.fields)
  }

  /** The declared paths of a document, `_id` aside: what `new Airbnb(doc)` keeps. */
  function Declared(doc: Object): (r: Object)
    ensures forall p :: p in r <==> p in doc && p in Schema
    ensures forall p :: p in r ==> r[p] == doc[p]
  {
    map p | p in doc && p in Schema :: doc[p]
  }

  /** The fields with the array defaults applied: `[]` under each array
      path they leave undefined. */
  function WithDefaults(fields: Object): (r: Object)
    ensures forall p :: p in r <==> p in fields || p in ArrayPaths
    ensures forall p :: p in r ==> r[p] == if p in fields then fields[p] else Arr([])
  {
    map p | p in fields.Keys + ArrayPaths :: if p in fields then fields[p] else Arr([])
  }

  /** `new Airbnb(doc)` followed by the validation that `save()` runs: every
      declared path is validated and all failures are reported together, then a
      document without `_id` is refused. Undeclared keys are dropped, and the
      array paths the document leaves undefined get their default `[]`. */
  function FromDoc(doc: Object): (r: Result<Listing, StoreError>)
    ensures r.Ok? <==> DocErrors(doc) == {} && "_id" in doc
    ensures r.Err? && DocErrors(doc) != {} ==> r.error == Invalid(DocErrors(doc))
    ensures r.Err? && DocErrors(doc) == {} ==> r.error == MissingId
    ensures r.Ok? ==> ListingOk(r.value) && Str(r.value.id) == doc["_id"]
  {
    var errors := DocErrors(doc);
    if errors != {} then Err(Invalid(errors))
    else if "_id" !in doc then Err(MissingId)
    else
      assert IdOk(Get(doc, "_id"));
      var l := Listing(doc["_id"].s, WithDefaults(Declared(doc)));
      DefaultsOk(doc);
      Ok(l)
  }

  /** A document that passes validation still does once the array defaults
      are applied: `[]` is a valid value of either array path. */
  lemma DefaultsOk(doc: Object)
    requires DocErrors(doc) == {}
    ensures ListingOk(Listing("", WithDefaults(Declared(doc))))
  {
    var fields := WithDefaults(Declared(doc));
    forall p | p in Schema ensures PathOk(Schema[p], Get(fields, p)) {
      var spec := Schema[p];
      assert p !in DocErrors(doc);
      assert PathOk(spec, Get(doc, p));
      if p !in doc && p in ArrayPaths {
        ArrayPathsExact(p);
        assert spec.Optional? && IsArray(spec.kind);
        assert KindOk(spec.kind, Arr([]));
      }
    }
  }

  /** The listing as a document, as `findById` hands it back. */
  function ToDoc(l: Listing): (d: Object)
    ensures "_id" in d && d["_id"] == Str(l.id)
    ensures forall p :: p in d <==> p == "_id" || p in l.fields
  {
    l.fields["_id" := Str(l.id)]
  }

  /** In a listing the schema admits, a set `amenities` is a list of strings
      and a set `reviews` a list (of values of any kind). */
  lemma ListShapes(l: Listing)
    requires ListingOk(l)
    ensures "amenities" in l.fields && !l.fields["amenities"].Null? ==>
      var v := l.fields["amenities"];
      v.Arr? && forall i :: 0 <= i < |v.items| ==> v.items[i].Str?
    ensures "reviews" in l.fields && !l.fields["reviews"].Null? ==> l.fields["reviews"].Arr?
  {
    SchemaFacts();
    assert PathOk(Schema["amenities"], Get(l.fields, "amenities"));
    assert PathOk(Schema["reviews"], Get(l.fields, "reviews"));
  }

  /** Storing a listing the schema admits and reading it back gives the same
      listing. */
  lemma RoundTrip(l: Listing)
    requires ListingOk(l)
    ensures FromDoc(ToDoc(l)) == Ok(l)
  {
    IdNotInSchema();
    var d := ToDoc(l);
    forall p | p in Schema ensures Get(d, p) == Get(l.fields, p) { }
    assert DocErrors(d) == {};
    assert Declared(d) == l.fields;
    assert WithDefaults(l.fields) == l.fields;
  }

  /** A stored listing reads back as the `_id` and the declared paths of the
      document it was created from, each as sent, plus `[]` under each array
      path the document left undefined. */
  lemma FromDocKeepsDeclared(doc: Object)
    requires FromDoc(doc).Ok?
    ensures var d := ToDoc(FromDoc(doc).value);
      forall p :: p in d <==> p == "_id" || (p in doc && p in Schema) || p in ArrayPaths
    ensures var d := ToDoc(FromDoc(doc).value);
      forall p :: p in d ==> d[p] == if p in doc then doc[p] else Arr([])
  {
    IdNotInSchema();
    assert forall p :: p in ArrayPaths ==> p in Schema;
  }

  /** A document lacking any required path is refused, naming that path. */
  lemma MissingRequiredRejected(doc: Object, p: string)
    requires p in Schema && !Schema[p].Optional? && p !in doc
    ensures FromDoc(doc) == Err(Invalid(DocErrors(doc))) && p in DocErrors(doc)
  {
    assert !PathOk(Schema[p], Get(doc, p));
  }

  /** Leaving out an optional path never causes a rejection. */
  lemma OmittingOptionalHarmless(doc: Object, p: string)
    requires p in Schema && Schema[p].Optional? && FromDoc(doc).Ok?
    ensures FromDoc(doc - {p}).Ok?
  {
    IdNotInSchema();
    var d2 := doc - {p};
    forall q | q in Schema ensures PathOk(Schema[q], Get(d2, q)) {
      assert PathOk(Schema[q], Get(doc, q));
    }
    assert DocErrors(d2) == {} by {
      assert IdOk(Get(doc, "_id"));
    }
  }

  /** The paths of an update that fail their cast or `required` validator:
      with `runValidators`, only the paths the update sets are checked. */
  function UpdateErrors(data: Object): (r: set<string>)
    ensures forall p :: p in r <==>
      (p == "_id" && "_id" in data && !data["_id"].Str?)
      || (p in data && p in Schema && !PathOk(Schema[p], Some(data[p])))
  {
    (if "_id" in data && !data["_id"].Str? then {"_id"} else {})
      + set p | p in data && p in Schema && !PathOk(Schema[p], Some(data[p]))
  }

  /** The listing after `$set`-ting the declared paths of `data` on it; the
      other paths keep their values and undeclared keys are dropped. */
  function Merge(l: Listing, data: Object): (r: Listing)
    ensures r.id == l.id
    ensures forall p :: p in r.fields <==> p in l.fields || (p in data && p in Schema)
    ensures forall p :: p in Schema ==>
      Get(r.fields, p) == (if p in data then Some(data[p]) else Get(l.fields, p))
    ensures ListingOk(l) && UpdateErrors(data) == {} ==> ListingOk(r)
  {
    var r := Listing(l.id, l.fields + Declared(data));
    assert ListingOk(l) && UpdateErrors(data) == {} ==> ListingOk(r) by {
      if ListingOk(l) && UpdateErrors(data) == {} {
        forall p | p in Schema ensures PathOk(Schema[p], Get(r.fields, p)) {
          if p in data {
            assert p !in UpdateErrors(data);
          }
        }
      }
    }
    r
  }
}
