/**
 * Dynamic JavaScript values as they arrive from `JSON.parse` or as
 * `unknown` parameters, with the few primitive operations the core applies
 * to them: truthiness, `typeof v === "object"`, property access and the
 * `getString`/`getNumber` helpers. Numbers are modelled as integers.
 */
module Json {
  import opened Wrappers

  datatype Json =
    | JUndefined
    | JNull
    | JBool(b: bool)
    | JNumber(n: int)
    | JString(s: string)
    | JArray(items: seq<Json>)
    | JObject(fields: map<string, Json>)

  /** JavaScript truthiness (`!!v`); NaN is not modelled. */
  predicate Truthy(v: Json) {
    match v
    case JUndefined => false
    case JNull => false
    case JBool(b) => b
    case JNumber(n) => n != 0
    case JString(s) => s != ""
    case JArray(_) => true
    case JObject(_) => true
  }

  /** `typeof v === "object"`, which also holds of `null` and of arrays. */
  predicate IsObjectType(v: Json) {
    v.JNull? || v.JArray? || v.JObject?
  }

  /** `v && typeof v === "object"`: a non-null object or an array. */
  predicate IsRecord(v: Json) {
    Truthy(v) && IsObjectType(v)
  }

  lemma RecordIsArrayOrObject(v: Json)
    ensures IsRecord(v) <==> v.JArray? || v.JObject?
  {
  }

  /** Property access `v[key]`; anything but an object with that key gives `undefined`. */
  function Get(v: Json, key: string): Json {
    if v.JObject? && key in v.fields then v.fields[key] else JUndefined
  }

  /** `typeof v[key] === "string" ? v[key] : null`. */
  function GetString(v: Json, key: string): (r: Option<string>)
    ensures r.Some? <==> Get(v, key).JString?
    ensures r.Some? ==> Get(v, key) == JString(r.value)
  {
    match Get(v, key)
    case JString(s) => Some(s)
    case _ => None
  }

  /** `typeof v[key] === "number" ? v[key] : null`. */
  function GetNumber(v: Json, key: string): (r: Option<int>)
    ensures r.Some? <==> Get(v, key).JNumber?
    ensures r.Some? ==> Get(v, key) == JNumber(r.value)
  {
    match Get(v, key)
    case JNumber(n) => Some(n)
    case _ => None
  }
}
