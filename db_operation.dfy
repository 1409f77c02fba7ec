/** The listing collection and the operations of config/db-operation.js on it:
    the paginated, filtered, `_id`-ordered query, and lookup, insert, update
    and delete by `_id`. */
module DbOperation {
  import opened Wrappers
  import opened Json
  import opened Strings
  import opened Airbnb

  /** The value of a listing's unique `listing_url` path. */
  function Url(l: Listing): Option<Value> {
    Get(l.fields, "listing_url")
  }

  predicate DistinctIds(s: seq<Listing>) {
    forall i, j :: 0 <= i < j < |s| ==> s[i].id != s[j].id
  }

  predicate DistinctUrls(s: seq<Listing>) {
    forall i, j :: 0 <= i < j < |s| ==> Url(s[i]) != Url(s[j])
  }

  /** The collection's invariant: every document conforms to the schema and
      the unique indexes on `_id` and `listing_url` hold. */
  predicate StoreOk(s: seq<Listing>) {
    && (forall i :: 0 <= i < |s| ==> ListingOk(s[i]))
    && DistinctIds(s)
    && DistinctUrls(s)
  }

  // ---------------------------------------------------------------- ordering

  predicate SortedById(s: seq<Listing>) {
    forall i, j :: 0 <= i < j < |s| ==> LessEq(s[i].id, s[j].id)
  }

  /** Strictly ascending `_id`. */
  predicate AscendingById(s: seq<Listing>) {
    forall i, j :: 0 <= i < j < |s| ==> Less(s[i].id, s[j].id)
  }

  function InsertById(x: Listing, s: seq<Listing>): (r: seq<Listing>)
    ensures |r| == |s| + 1
  {
    if s == [] || LessEq(x.id, s[0].id) then [x] + s
    else [s[0]] + InsertById(x, s[1..])
  }

  /** The collection sorted by `_id` (`.sort({ _id: 1 })`). */
  function SortById(s: seq<Listing>): (r: seq<Listing>)
    ensures |r| == |s|
  {
    if s == [] then [] else InsertById(s[0], SortById(s[1..]))
  }

  lemma {:induction false} InsertPermutes(x: Listing, s: seq<Listing>)
    ensures multiset(InsertById(x, s)) == multiset(s) + multiset{x}
  {
    if s != [] && !LessEq(x.id, s[0].id) {
      InsertPermutes(x, s[1..]);
      assert s == [s[0]] + s[1..];
    }
  }

  lemma {:induction false} SortPermutes(s: seq<Listing>)
    ensures multiset(SortById(s)) == multiset(s)
  {
    if s != [] {
      SortPermutes(s[1..]);
      InsertPermutes(s[0], SortById(s[1..]));
      assert s == [s[0]] + s[1..];
    }
  }

  /** Every listing of a sorted sequence has an `_id` no smaller than the first. */
  lemma HeadIsLeast(s: seq<Listing>, l: Listing)
    requires SortedById(s) && s != [] && l in s
    ensures LessEq(s[0].id, l.id)
  {
    var j :| 0 <= j < |s| && s[j] == l;
  }

  lemma {:induction false} InsertSorted(x: Listing, s: seq<Listing>)
    requires SortedById(s)
    ensures SortedById(InsertById(x, s))
  {
    var r := InsertById(x, s);
    if s == [] {
    } else if LessEq(x.id, s[0].id) {
      forall j | 0 <= j < |s| ensures LessEq(x.id, s[j].id) {
        if x.id != s[0].id && s[0].id != s[j].id { LessTransitive(x.id, s[0].id, s[j].id); }
      }
    } else {
      LessTotal(x.id, s[0].id);
      InsertSorted(x, s[1..]);
      InsertMembers(x, s[1..]);
      var rest := InsertById(x, s[1..]);
      forall l | l in rest ensures LessEq(s[0].id, l.id) {
        if l != x { HeadIsLeast(s, l); }
      }
      forall i, j | 0 <= i < j < |r| ensures LessEq(r[i].id, r[j].id) {
        if i > 0 { assert r[i] == rest[i - 1] && r[j] == rest[j - 1]; }
        else { assert r[j] == rest[j - 1]; }
      }
    }
  }

  lemma {:induction false} SortSorted(s: seq<Listing>)
    ensures SortedById(SortById(s))
  {
    if s != [] {
      SortSorted(s[1..]);
      InsertSorted(s[0], SortById(s[1..]));
    }
  }

  /** No two positions share an `_id`: a sorted sequence is then strictly
      ascending. */
  lemma SortedDistinctAscending(s: seq<Listing>)
    requires SortedById(s) && DistinctIds(s)
    ensures AscendingById(s)
  {
  }

  lemma InsertMembers(x: Listing, s: seq<Listing>)
    ensures forall l :: l in InsertById(x, s) <==> l == x || l in s
  {
    InsertPermutes(x, s);
    assert forall l :: l in InsertById(x, s) <==> l in multiset(InsertById(x, s));
  }

  lemma {:induction false} InsertAscending(x: Listing, s: seq<Listing>)
    requires AscendingById(s)
    requires forall l :: l in s ==> l.id != x.id
    ensures AscendingById(InsertById(x, s))
  {
    if s == [] {
    } else if LessEq(x.id, s[0].id) {
      assert s[0] in s;
      forall j | 1 <= j < |s| ensures Less(x.id, s[j].id) {
        LessTransitive(x.id, s[0].id, s[j].id);
      }
    } else {
      LessTotal(x.id, s[0].id);
      InsertAscending(x, s[1..]);
      var rest := InsertById(x, s[1..]);
      InsertMembers(x, s[1..]);
      forall k | 0 <= k < |rest| ensures Less(s[0].id, rest[k].id) {
        if rest[k] != x {
          assert rest[k] in s[1..];
        }
      }
      assert InsertById(x, s) == [s[0]] + rest;
    }
  }

  /** Over distinct `_id`s, the sort yields strictly ascending `_id`s. */
  lemma {:induction false} SortAscending(s: seq<Listing>)
    requires DistinctIds(s)
    ensures AscendingById(SortById(s))
  {
    if s != [] {
      var rest := SortById(s[1..]);
      SortAscending(s[1..]);
      SortPermutes(s[1..]);
      forall l | l in rest ensures l.id != s[0].id {
        assert l in multiset(rest);
        var j :| 0 <= j < |s[1..]| && s[1..][j] == l;
        assert s[j + 1] == l;
      }
      InsertAscending(s[0], rest);
    }
  }

  // ---------------------------------------------------------------- filtering

  predicate HasType(l: Listing, t: string) {
    Get(l.fields, "property_type") == Some(Str(t))
  }

  /** `find({ property_type: t })` */
  function WhereType(s: seq<Listing>, t: string): (r: seq<Listing>)
    ensures forall l :: l in r <==> l in s && HasType(l, t)
    ensures DistinctIds(s) ==> DistinctIds(r)
    ensures |r| <= |s|
  {
    if s == [] then []
    else
      var rest := WhereType(s[1..], t);
      assert s == [s[0]] + s[1..];
      if HasType(s[0], t) then
        assert DistinctIds(s) ==> DistinctIds([s[0]] + rest) by {
          if DistinctIds(s) {
            forall l | l in rest ensures l.id != s[0].id {
              var j :| 1 <= j < |s| && s[j] == l;
            }
          }
        }
        [s[0]] + rest
      else rest
  }

  /** `property_type ? { property_type } : {}`: an absent or empty type
      filters nothing out. */
  function FilterByType(s: seq<Listing>, t: Option<string>): (r: seq<Listing>)
    ensures t.None? || t.value == "" ==> r == s
    ensures t.Some? && t.value != "" ==> forall l :: l in r <==> l in s && HasType(l, t.value)
    ensures DistinctIds(s) ==> DistinctIds(r)
  {
    if t.Some? && t.value != "" then WhereType(s, t.value) else s
  }

  // ---------------------------------------------------------------- paging

  function Min(a: int, b: int): int { if a <= b then a else b }

  /** `.skip(skip).limit(limit)` */
  function Window(s: seq<Listing>, skip: nat, limit: nat): (r: seq<Listing>)
    ensures |r| == (if skip >= |s| then 0 else Min(limit, |s| - skip))
    ensures forall i :: 0 <= i < |r| ==> r[i] == s[skip + i]
  {
    if skip >= |s| then [] else s[skip..Min(|s|, skip + limit)]
  }

  /** `getAllAirBnBs(page, perPage, property_type)`: the filtered collection,
      sorted by `_id`, less its first `(page - 1) * perPage` listings and cut
      to at most `perPage`. */
  function GetAll(docs: seq<Listing>, page: int, perPage: int, propertyType: Option<string>): (r: seq<Listing>)
    requires page >= 1 && perPage >= 1
    ensures var ordered := SortById(FilterByType(docs, propertyType));
      var skip := (page - 1) * perPage;
      && |r| == (if skip >= |ordered| then 0 else Min(perPage, |ordered| - skip))
      && forall i :: 0 <= i < |r| ==> r[i] == ordered[skip + i]
  {
    Window(SortById(FilterByType(docs, propertyType)), (page - 1) * perPage, perPage)
  }

  /** A page holds at most `perPage` listings. */
  lemma GetAllBounded(docs: seq<Listing>, page: int, perPage: int, propertyType: Option<string>)
    requires page >= 1 && perPage >= 1
    ensures |GetAll(docs, page, perPage, propertyType)| <= perPage
  {
  }

  /** Every listing on a page is in the collection and, when a type is
      given, has exactly that `property_type`. */
  lemma GetAllMatches(docs: seq<Listing>, page: int, perPage: int, propertyType: Option<string>)
    requires page >= 1 && perPage >= 1
    ensures var r := GetAll(docs, page, perPage, propertyType);
      && (forall l :: l in r ==> l in docs)
      && (propertyType.Some? && propertyType.value != "" ==>
            forall l :: l in r ==> HasType(l, propertyType.value))
  {
    var r := GetAll(docs, page, perPage, propertyType);
    var filtered := FilterByType(docs, propertyType);
    var ordered := SortById(filtered);
    var skip := (page - 1) * perPage;
    SortPermutes(filtered);
    forall l | l in r ensures l in filtered {
      var i :| 0 <= i < |r| && r[i] == l;
      assert ordered[skip + i] in multiset(ordered);
    }
  }

  /** Over a collection with unique `_id`s, a page is in strictly ascending
      `_id` order. */
  lemma GetAllAscending(docs: seq<Listing>, page: int, perPage: int, propertyType: Option<string>)
    requires page >= 1 && perPage >= 1
    requires DistinctIds(docs)
    ensures AscendingById(GetAll(docs, page, perPage, propertyType))
  {
    var r := GetAll(docs, page, perPage, propertyType);
    var filtered := FilterByType(docs, propertyType);
    var ordered := SortById(filtered);
    var skip := (page - 1) * perPage;
    SortAscending(filtered);
    forall i, j | 0 <= i < j < |r| ensures Less(r[i].id, r[j].id) {
      assert r[i] == ordered[skip + i] && r[j] == ordered[skip + j];
    }
  }

  /** When no type is given, nothing is filtered out: page 1 with a large
      enough `perPage` returns the whole collection, sorted. */
  lemma NoFilterKeepsAll(docs: seq<Listing>, perPage: int)
    requires perPage >= |docs| && perPage >= 1
    ensures GetAll(docs, 1, perPage, None) == SortById(docs)
  {
    var r := GetAll(docs, 1, perPage, None);
  }

  /** A page that starts at or after the last matching listing is empty. */
  lemma PastLastPage(docs: seq<Listing>, page: int, perPage: int, propertyType: Option<string>)
    requires page >= 1 && perPage >= 1
    requires (page - 1) * perPage >= |FilterByType(docs, propertyType)|
    ensures GetAll(docs, page, perPage, propertyType) == []
  {
  }

  /** Over twelve listings, page 2 of 5 holds the 6th to 10th in `_id`
      order and page 10 of 5 is empty. */
  lemma TwelveListings(docs: seq<Listing>)
    requires |docs| == 12
    ensures GetAll(docs, 2, 5, None) == SortById(docs)[5..10]
    ensures GetAll(docs, 10, 5, None) == []
  {
    var r := GetAll(docs, 2, 5, None);
    assert |r| == 5;
    assert forall i :: 0 <= i < 5 ==> r[i] == SortById(docs)[5 + i];
  }

  lemma NonEmptyHasHead(s: seq<Listing>)
    ensures s == [] || s[0] in s
  {
  }

  /** Two strictly ascending sequences with the same members are equal. */
  lemma {:induction false} AscendingUnique(a: seq<Listing>, b: seq<Listing>)
    requires AscendingById(a) && AscendingById(b)
    requires forall l :: l in a <==> l in b
    ensures a == b
  {
    if a == [] {
      NonEmptyHasHead(b);
    } else {
      assert a[0] in b;
      assert b[0] in a;
      var k :| 0 <= k < |b| && b[k] == a[0];
      var m :| 0 <= m < |a| && a[m] == b[0];
      if k > 0 && m > 0 {
        LessAsymmetric(b[0].id, a[0].id);
        assert false;
      }
      assert a[0] == b[0] by {
        if k != 0 { assert m == 0; }
      }
      forall l ensures l in a[1..] <==> l in b[1..] {
        if l in a[1..] {
          var i :| 1 <= i < |a| && a[i] == l;
          assert l != a[0] by { LessIrreflexive(a[0].id); }
          assert l in b;
        }
        if l in b[1..] {
          var i :| 1 <= i < |b| && b[i] == l;
          assert l != b[0] by { LessIrreflexive(b[0].id); }
          assert l in a;
        }
      }
      AscendingUnique(a[1..], b[1..]);
      assert a == [a[0]] + a[1..] && b == [b[0]] + b[1..];
    }
  }

  /** The order in which the collection happens to hold its listings does not
      affect any page: the result depends only on which listings are stored. */
  lemma StorageOrderIrrelevant(a: seq<Listing>, b: seq<Listing>, page: int, perPage: int, propertyType: Option<string>)
    requires DistinctIds(a) && DistinctIds(b)
    requires forall l :: l in a <==> l in b
    requires page >= 1 && perPage >= 1
    ensures GetAll(a, page, perPage, propertyType) == GetAll(b, page, perPage, propertyType)
  {
    var fa, fb := FilterByType(a, propertyType), FilterByType(b, propertyType);
    assert forall l :: l in fa <==> l in fb;
    SortUnique(fa, fb);
  }

  /** Sorting forgets the storage order of listings with distinct `_id`s. */
  lemma SortUnique(a: seq<Listing>, b: seq<Listing>)
    requires DistinctIds(a) && DistinctIds(b)
    requires forall l :: l in a <==> l in b
    ensures SortById(a) == SortById(b)
  {
    SortAscending(a);
    SortAscending(b);
    SortMembers(a);
    SortMembers(b);
    AscendingUnique(SortById(a), SortById(b));
  }

  lemma SortMembers(s: seq<Listing>)
    ensures forall l :: l in SortById(s) <==> l in s
  {
    SortPermutes(s);
    assert forall l :: l in SortById(s) <==> l in multiset(SortById(s));
  }

  // ---------------------------------------------------------------- lookup

  /** The position of the listing with `_id` equal to `id`, if any. */
  function IndexOf(s: seq<Listing>, id: string): (r: Option<nat>)
    ensures r.Some? ==> r.value < |s| && s[r.value].id == id
    ensures r.Some? ==> forall j :: 0 <= j < r.value ==> s[j].id != id
    ensures r.None? ==> forall j :: 0 <= j < |s| ==> s[j].id != id
  {
    if s == [] then None
    else if s[0].id == id then Some(0)
    else match IndexOf(s[1..], id)
      case None => None
      case Some(k) => Some(k + 1)
  }

  /** `findById(id)`: the stored listing with that `_id`, or null. */
  function Lookup(s: seq<Listing>, id: string): (r: Option<Listing>)
    ensures r.Some? <==> exists i :: 0 <= i < |s| && s[i].id == id
    ensures r.Some? ==> r.value in s && r.value.id == id
  {
    match IndexOf(s, id)
    case None => None
    case Some(i) => Some(s[i])
  }

  /** Under the `_id` index, the lookup of a stored listing's `_id` finds
      exactly that listing. */
  lemma LookupStored(s: seq<Listing>, i: int)
    requires DistinctIds(s) && 0 <= i < |s|
    ensures IndexOf(s, s[i].id) == Some(i)
    ensures Lookup(s, s[i].id) == Some(s[i])
  {
    var k := IndexOf(s, s[i].id);
    assert k.Some?;
    if k.value < i {
    } else if k.value > i {
    }
  }

  // ---------------------------------------------------------------- insert

  /** A listing that would violate the unique index on `_id` or on
      `listing_url`. */
  predicate Collides(s: seq<Listing>, l: Listing) {
    exists i :: 0 <= i < |s| && (s[i].id == l.id || Url(s[i]) == Url(l))
  }

  /** `new Airbnb(data).save()`: schema validation first, then the unique
      indexes; on success the stored listing is returned. */
  function AddResult(s: seq<Listing>, data: Object): (r: Result<Listing, StoreError>)
    ensures FromDoc(data).Err? ==> r == Err(FromDoc(data).error)
    ensures FromDoc(data).Ok? && Collides(s, FromDoc(data).value) ==> r == Err(DuplicateKey)
    ensures r.Ok? <==> FromDoc(data).Ok? && !Collides(s, FromDoc(data).value)
    ensures r.Ok? ==> r.value == FromDoc(data).value && ListingOk(r.value)
  {
    match FromDoc(data)
    case Err(e) => Err(e)
    case Ok(l) => if Collides(s, l) then Err(DuplicateKey) else Ok(l)
  }

  /** An insert whose `_id` is already stored fails. */
  lemma AddDuplicateIdRejected(s: seq<Listing>, data: Object, i: int)
    requires 0 <= i < |s| && "_id" in data && data["_id"] == Str(s[i].id)
    ensures AddResult(s, data).Err?
  {
    if FromDoc(data).Ok? {
      assert FromDoc(data).value.id == s[i].id;
    }
  }

  /** An insert whose `listing_url` is already stored fails, whatever its
      `_id`. */
  lemma AddDuplicateUrlRejected(s: seq<Listing>, data: Object, i: int)
    requires 0 <= i < |s| && "listing_url" in data && Url(s[i]) == Some(data["listing_url"])
    ensures AddResult(s, data).Err?
  {
    if FromDoc(data).Ok? {
      assert Url(FromDoc(data).value) == Some(data["listing_url"]);
    }
  }

  /** A successful insert keeps the collection's invariant. */
  lemma AddKeepsStoreOk(s: seq<Listing>, data: Object)
    requires StoreOk(s) && AddResult(s, data).Ok?
    ensures StoreOk(s + [AddResult(s, data).value])
  {
    var l := AddResult(s, data).value;
    var t := s + [l];
    forall i, j | 0 <= i < j < |t| ensures t[i].id != t[j].id && Url(t[i]) != Url(t[j]) {
      if j == |s| {
        assert !(s[i].id == l.id || Url(s[i]) == Url(l));
      } else {
        assert t[i] == s[i] && t[j] == s[j];
      }
    }
  }

  /** After a successful insert, looking up the document's `_id` gives back
      its `_id` and its declared paths as sent, with `[]` under each array
      path it left undefined. */
  lemma AddThenFind(s: seq<Listing>, data: Object)
    requires StoreOk(s) && AddResult(s, data).Ok?
    ensures "_id" in data && data["_id"].Str?
    ensures var found := Lookup(s + [AddResult(s, data).value], data["_id"].s);
      && found.Some?
      && (forall p :: p in ToDoc(found.value) <==> p == "_id" || (p in data && p in Schema) || p in ArrayPaths)
      && (forall p :: p in ToDoc(found.value) ==> ToDoc(found.value)[p] == if p in data then data[p] else Arr([]))
  {
    var l := AddResult(s, data).value;
    AddKeepsStoreOk(s, data);
    LookupStored(s + [l], |s|);
    FromDocKeepsDeclared(data);
  }

  // ---------------------------------------------------------------- update

  /** `findByIdAndUpdate(id, data, { new: true, runValidators: true })`: the
      update validators run on the paths `data` sets; an unknown `id` gives
      null; `_id` cannot be changed; the merged listing must keep the
      `listing_url` index unique. On success the updated listing is returned. */
  function UpdateResult(s: seq<Listing>, data: Object, id: string): (r: Result<Option<Listing>, StoreError>)
    ensures UpdateErrors(data) != {} ==> r == Err(Invalid(UpdateErrors(data)))
    ensures r == Ok(None) <==> UpdateErrors(data) == {} && Lookup(s, id).None?
    ensures r.Ok? && r.value.Some? ==>
      && IndexOf(s, id).Some?
      && r.value.value == Merge(s[IndexOf(s, id).value], data)
      && r.value.value.id == id
    ensures UpdateErrors(data) == {} && Lookup(s, id).Some? && "_id" in data && data["_id"] != Str(id)
      ==> r == Err(ImmutableId)
    ensures UpdateErrors(data) == {} && IndexOf(s, id).Some? && !("_id" in data && data["_id"] != Str(id)) ==>
      var i := IndexOf(s, id).value;
      var merged := Merge(s[i], data);
      if exists j :: 0 <= j < |s| && j != i && Url(s[j]) == Url(merged)
      then r == Err(DuplicateKey)
      else r == Ok(Some(merged))
  {
    var errors := UpdateErrors(data);
    if errors != {} then Err(Invalid(errors))
    else match IndexOf(s, id)
      case None => Ok(None)
      case Some(i) =>
        if "_id" in data && data["_id"] != Str(id) then Err(ImmutableId)
        else
          var l := Merge(s[i], data);
          if exists j :: 0 <= j < |s| && j != i && Url(s[j]) == Url(l) then Err(DuplicateKey)
          else Ok(Some(l))
  }

  /** A successful update keeps the collection's invariant. */
  lemma UpdateKeepsStoreOk(s: seq<Listing>, data: Object, id: string)
    requires StoreOk(s)
    requires UpdateResult(s, data, id).Ok? && UpdateResult(s, data, id).value.Some?
    ensures StoreOk(s[IndexOf(s, id).value := UpdateResult(s, data, id).value.value])
  {
    var i := IndexOf(s, id).value;
    var l := UpdateResult(s, data, id).value.value;
    assert UpdateErrors(data) == {};
    assert l == Merge(s[i], data) && l.id == s[i].id;
    assert !("_id" in data && data["_id"] != Str(id));
    assert !(exists j :: 0 <= j < |s| && j != i && Url(s[j]) == Url(l));
    assert ListingOk(s[i]);
    ReplaceKeepsStoreOk(s, i, l);
  }

  /** Replacing a listing by a conforming one with the same `_id` and a
      `listing_url` no other listing has keeps the invariant. */
  lemma ReplaceKeepsStoreOk(s: seq<Listing>, i: int, l: Listing)
    requires StoreOk(s) && 0 <= i < |s|
    requires ListingOk(l) && l.id == s[i].id
    requires forall j :: 0 <= j < |s| && j != i ==> Url(s[j]) != Url(l)
    ensures StoreOk(s[i := l])
  {
    var t := s[i := l];
    forall a, b | 0 <= a < b < |t| ensures t[a].id != t[b].id && Url(t[a]) != Url(t[b]) {
      if a == i {
        assert t[a] == l && t[b] == s[b];
      } else if b == i {
        assert t[a] == s[a] && t[b] == l;
      } else {
        assert t[a] == s[a] && t[b] == s[b];
      }
    }
    forall a | 0 <= a < |t| ensures ListingOk(t[a]) {
      if a != i { assert t[a] == s[a]; }
    }
  }

  /** After a successful update, the listing found under `id` is the one the
      update returned. */
  lemma UpdateThenFind(s: seq<Listing>, data: Object, id: string)
    requires StoreOk(s)
    requires UpdateResult(s, data, id).Ok? && UpdateResult(s, data, id).value.Some?
    ensures Lookup(s[IndexOf(s, id).value := UpdateResult(s, data, id).value.value], id)
      == UpdateResult(s, data, id).value
  {
    var i := IndexOf(s, id).value;
    UpdateKeepsStoreOk(s, data, id);
    LookupStored(s[i := UpdateResult(s, data, id).value.value], i);
  }

  // ---------------------------------------------------------------- delete

  /** The collection less its `i`th listing. */
  function Without(s: seq<Listing>, i: int): (r: seq<Listing>)
    requires 0 <= i < |s|
    ensures |r| == |s| - 1
    ensures forall j :: 0 <= j < i ==> r[j] == s[j]
    ensures forall j :: i <= j < |r| ==> r[j] == s[j + 1]
  {
    s[..i] + s[i + 1..]
  }

  /** After deleting the listing with `_id` equal to `id`, no listing has that
      `_id`, every other listing is still stored, and the invariant holds. */
  lemma DeleteRemoves(s: seq<Listing>, id: string)
    requires StoreOk(s) && IndexOf(s, id).Some?
    ensures var t := Without(s, IndexOf(s, id).value);
      && Lookup(t, id).None?
      && (forall l :: l in s && l.id != id ==> l in t)
      && (forall l :: l in t ==> l in s)
      && StoreOk(t)
  {
    var i := IndexOf(s, id).value;
    var t := Without(s, i);
    forall j | 0 <= j < |t| ensures t[j].id != id {
      if j >= i { assert t[j] == s[j + 1]; }
    }
    forall l | l in s && l.id != id ensures l in t {
      var k :| 0 <= k < |s| && s[k] == l;
      if k < i { assert t[k] == l; } else { assert k != i; assert t[k - 1] == l; }
    }
    forall l | l in t ensures l in s {
      var k :| 0 <= k < |t| && t[k] == l;
      if k >= i { assert s[k + 1] == l; }
    }
    WithoutKeepsStoreOk(s, i);
  }

  /** Removing any one listing keeps the invariant. */
  lemma WithoutKeepsStoreOk(s: seq<Listing>, i: int)
    requires StoreOk(s) && 0 <= i < |s|
    ensures StoreOk(Without(s, i))
  {
    var t := Without(s, i);
    forall a, b | 0 <= a < b < |t| ensures t[a].id != t[b].id && Url(t[a]) != Url(t[b]) {
      var a', b' := if a < i then a else a + 1, if b < i then b else b + 1;
      assert t[a] == s[a'] && t[b] == s[b'];
    }
    forall a | 0 <= a < |t| ensures ListingOk(t[a]) {
      if a >= i { assert t[a] == s[a + 1]; }
    }
  }

  // ---------------------------------------------------------------- the store

  /** The `listingsAndReviews` collection. */
  class Store {
    var docs: seq<Listing>

    ghost predicate Valid()
      reads this
    {
      StoreOk(docs)
    }

    constructor()
      ensures Valid() && docs == []
    {
      docs := [];
    }

    /** `getAirBnBById(id)` */
    method FindById(id: string) returns (r: Option<Listing>)
      ensures r == Lookup(docs, id)
      ensures r.Some? <==> exists i :: 0 <= i < |docs| && docs[i].id == id
      ensures r.Some? ==> r.value in docs && r.value.id == id
    {
      r := Lookup(docs, id);
    }

    /** `addNewAirBnB(data)` */
    method Add(data: Object) returns (r: Result<Listing, StoreError>)
      requires Valid()
      modifies this
      ensures Valid()
      ensures r == AddResult(old(docs), data)
      ensures docs == if r.Ok? then old(docs) + [r.value] else old(docs)
    {
      r := AddResult(docs, data);
      if r.Ok? {
        AddKeepsStoreOk(docs, data);
        docs := docs + [r.value];
      }
    }

    /** `updateAirBnBById(data, id)` */
    method UpdateById(data: Object, id: string) returns (r: Result<Option<Listing>, StoreError>)
      requires Valid()
      modifies this
      ensures Valid()
      ensures r == UpdateResult(old(docs), data, id)
      ensures r.Ok? && r.value.Some? ==> docs == old(docs)[IndexOf(old(docs), id).value := r.value.value]
      ensures !(r.Ok? && r.value.Some?) ==> docs == old(docs)
    {
      r := UpdateResult(docs, data, id);
      if r.Ok? && r.value.Some? {
        UpdateKeepsStoreOk(docs, data, id);
        docs := docs[IndexOf(docs, id).value := r.value.value];
      }
    }

    /** `deleteAirBnBById(id)` */
    method DeleteById(id: string) returns (r: Option<Listing>)
      requires Valid()
      modifies this
      ensures Valid()
      ensures r == Lookup(old(docs), id)
      ensures r.Some? ==> docs == Without(old(docs), IndexOf(old(docs), id).value)
      ensures r.None? ==> docs == old(docs)
    {
      var k := IndexOf(docs, id);
      if k.None? {
        r := None;
      } else {
        DeleteRemoves(docs, id);
        r := Some(docs[k.value]);
        docs := Without(docs, k.value);
      }
    }
  }
}
