/** JavaScript values as they reach the handlers: request bodies, query
    objects, stored documents and their nested objects. A JavaScript object
    is a map from keys to values; a key that is absent is `undefined`. */
module Json {
  import opened Wrappers

  datatype Value =
    | Null
    | Bool(b: bool)
    | Num(n: real)
    | NaN
    | Str(s: string)
    | Arr(items: seq<Value>)
    | Obj(fields: map<string, Value>)

  type Object = map<string, Value>

  /** JavaScript truthiness: `null`, `false`, `0`, `NaN` and `""` are falsy. */
  predicate Truthy(v: Value) {
    match v
    case Null => false
    case Bool(b) => b
    case Num(n) => n != 0.0
    case NaN => false
    case Str(s) => s != ""
    case Arr(_) => true
    case Obj(_) => true
  }

  /** `obj[key]`, with `undefined` as None. */
  function Get(obj: Object, key: string): (r: Option<Value>)
    ensures r.Some? <==> key in obj
    ensures r.Some? ==> r.value == obj[key]
  {
    if key in obj then Some(obj[key]) else None
  }

  /** Truthiness of a possibly undefined value (`undefined` is falsy). */
  predicate Defined(v: Option<Value>) {
    v.Some? && Truthy(v.value)
  }

  /** `v || fallback`: truthy whenever either operand is, so a truthy
      fallback makes the result truthy. */
  function Or(v: Option<Value>, fallback: Value): (r: Value)
    ensures Defined(v) ==> r == v.value
    ensures !Defined(v) ==> r == fallback
    ensures Truthy(r) <==> Defined(v) || Truthy(fallback)
  {
    if Defined(v) then v.value else fallback
  }
}
