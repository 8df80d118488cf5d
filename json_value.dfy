/** Already-parsed JSON values, as the services hand them to the pages, with
    JavaScript's property access and truthiness. A property that is absent
    reads as `None` (`undefined`). */
module JsonValue {
  import opened Wrappers

  datatype Json =
    | JNull
    | JBool(b: bool)
    | JNum(n: int)
    | JStr(s: string)
    | JArray(items: seq<Json>)
    | JObject(fields: map<string, Json>)

  /** JavaScript truthiness: `null`, `false`, `0` and `""` are falsy; every
      array and object is truthy. */
  predicate IsTruthy(v: Json)
  {
    match v
    case JNull => false
    case JBool(b) => b
    case JNum(n) => n != 0
    case JStr(s) => s != []
    case JArray(_) => true
    case JObject(_) => true
  }

  /** Truthiness of a property read, where `undefined` is falsy. */
  predicate Present(v: Option<Json>)
  {
    v.Some? && IsTruthy(v.value)
  }

  /** `v.key` on a value that is not `null`: the field of an object, and
      `undefined` for everything else. */
  function Get(v: Json, key: string): (r: Option<Json>)
    ensures r.Some? <==> v.JObject? && key in v.fields
  {
    if v.JObject? && key in v.fields then Some(v.fields[key]) else None
  }

  /** `a || b` on property reads. */
  function Or(a: Option<Json>, b: Option<Json>): (r: Option<Json>)
    ensures Present(r) <==> Present(a) || Present(b)
  {
    if Present(a) then a else b
  }
}
