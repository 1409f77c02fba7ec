/** `pickFields(source, fields)`: copy into a fresh object the listed keys
    whose value in `source` is not `undefined`. */
module Utils {
  import opened Json

  /** The object that `pickFields` builds, as a value. */
  function Picked(source: Object, fields: seq<string>): (r: Object)
    ensures forall k :: k in r <==> k in fields && k in source
    ensures forall k :: k in r ==> r[k] == source[k]
  {
    map k | k in fields && k in source :: source[k]
  }

  /** The `reduce` loop: each listed key that the source defines is written
      into the accumulator. */
  method PickFields(source: Object, fields: seq<string>) returns (obj: Object)
    ensures forall k :: k in obj <==> k in fields && k in source
    ensures forall k :: k in obj ==> obj[k] == source[k]
    ensures obj.Keys <= set k | k in fields
    ensures fields == [] ==> obj == map[]
    ensures obj == Picked(source, fields)
  {
    obj := map[];
    for i := 0 to |fields|
      invariant forall k :: k in obj <==> k in fields[..i] && k in source
      invariant forall k :: k in obj ==> obj[k] == source[k]
    {
      var key := fields[i];
      if key in source {
        obj := obj[key := source[key]];
      }
      assert fields[..i + 1] == fields[..i] + [key];
    }
    assert fields[..|fields|] == fields;
  }

  /** Picking the same fields twice changes nothing. */
  lemma PickedIdempotent(source: Object, fields: seq<string>)
    ensures Picked(Picked(source, fields), fields) == Picked(source, fields)
  {
  }

  /** Only the listed fields matter: keys outside `fields` never reach the
      result, so changing them does not change it. */
  lemma PickedIgnoresUnlisted(s1: Object, s2: Object, fields: seq<string>)
    requires forall k :: k in fields ==> (k in s1 <==> k in s2)
    requires forall k :: k in fields && k in s1 ==> s1[k] == s2[k]
    ensures Picked(s1, fields) == Picked(s2, fields)
  {
  }
}
