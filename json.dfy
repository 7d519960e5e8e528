/** The JSON values `JSON.parse` produces, with the JavaScript notions the
    style-details validation applies to them: truthiness, property access on
    anything, and `Array.isArray`. Numbers are reals (NaN is not a JSON value). */
module Json {
  import opened Wrappers

  datatype Json =
    | JNull
    | JBool(b: bool)
    | JNumber(n: real)
    | JString(s: string)
    | JArray(items: seq<Json>)
    | JObject(fields: map<string, Json>)

  /** JavaScript truthiness of a parsed value: `null`, `false`, `0` and `""` are falsy. */
  predicate Truthy(j: Json) {
    match j
    case JNull => false
    case JBool(b) => b
    case JNumber(n) => n != 0.0
    case JString(s) => s != ""
    case JArray(_) => true
    case JObject(_) => true
  }

  /** `j[key]` on a parsed value: the field of an object, `undefined` (None)
      for a missing key or for any value that is not an object. */
  function Member(j: Json, key: string): (r: Option<Json>)
    ensures r.Some? <==> j.JObject? && key in j.fields
    ensures r.Some? ==> r.value == j.fields[key]
  {
    if j.JObject? && key in j.fields then Some(j.fields[key]) else None
  }

  /** A property that is present and truthy (`!!j[key]`). */
  predicate TruthyMember(j: Json, key: string) {
    var m := Member(j, key);
    m.Some? && Truthy(m.value)
  }

  /** `Array.isArray(j[key])`. */
  predicate ArrayMember(j: Json, key: string) {
    var m := Member(j, key);
    m.Some? && m.value.JArray?
  }
}
