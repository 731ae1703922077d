/**
 * Decoded JSON documents and the Python truthiness of their values.
 * Texts are decoded outside the model: a response body reaches the model
 * as `Option<Json>`, `None` standing for a body that does not decode.
 */
module Json {
  import opened Wrappers
  import opened Text

  datatype Json =
    | JNull
    | JBool(b: bool)
    | JInt(i: int)
    | JReal(r: real)
    | JString(s: string)
    | JArray(items: seq<Json>)
    | JObject(fields: map<string, Json>)

  /** `bool(v)` in Python for the decoded value. */
  predicate Truthy(v: Json)
  {
    match v
    case JNull => false
    case JBool(b) => b
    case JInt(i) => i != 0
    case JReal(r) => r != 0.0
    case JString(s) => s != ""
    case JArray(items) => items != []
    case JObject(fields) => fields != map[]
  }

  /** `d.get(key)` on a decoded object: the value, or `None` as Python's None. */
  function Get(fields: map<string, Json>, key: string): (r: Json)
    ensures key !in fields ==> r == JNull
    ensures key in fields ==> r == fields[key]
  {
    if key in fields then fields[key] else JNull
  }

  /** `d[key]` on a decoded object: the value, or KeyError. */
  function Index(fields: map<string, Json>, key: string): (r: Result<Json>)
    ensures r.Ok? <==> key in fields
    ensures r.Ok? ==> r.value == fields[key]
    ensures r.Raise? ==> r.error == KeyError(key)
  {
    if key in fields then Ok(fields[key]) else Raise(KeyError(key))
  }

  /**
   * `v[key]` with a string key on any decoded value: a dict's entry or
   * KeyError; every other JSON value refuses a string index with TypeError.
   */
  function Lookup(v: Json, key: string): (r: Result<Json>)
    ensures r.Ok? <==> v.JObject? && key in v.fields
    ensures r.Ok? ==> r.value == v.fields[key]
    ensures r.Raise? ==> (if v.JObject? then r.error == KeyError(key) else r.error.TypeError?)
  {
    if v.JObject? then Index(v.fields, key)
    else Raise(TypeError("string indices on a non-dict value"))
  }

  /**
   * `for x in v`: a list's items, a string's one-character strings or a
   * dict's keys; numbers, booleans and None are not iterable. Python 2
   * leaves the order of a dict's keys open; the model takes them sorted.
   */
  function Items(v: Json): (r: Result<seq<Json>>)
    ensures r.Raise? <==> !(v.JArray? || v.JString? || v.JObject?)
    ensures v.JArray? ==> r == Ok(v.items)
  {
    match v
    case JArray(items) => Ok(items)
    case JString(s) => Ok(seq(|s|, i requires 0 <= i < |s| => JString([s[i]])))
    case JObject(fields) =>
      var keys := SortedSeq(fields.Keys);
      Ok(seq(|keys|, i requires 0 <= i < |keys| => JString(keys[i])))
    case _ => Raise(TypeError("object is not iterable"))
  }

  /** `key in v` for a string key: dict membership, substring, or list membership. */
  function Has(v: Json, key: string): (r: Result<bool>)
    ensures r.Raise? <==> !(v.JArray? || v.JString? || v.JObject?)
    ensures v.JObject? ==> r == Ok(key in v.fields)
  {
    match v
    case JObject(fields) => Ok(key in fields)
    case JString(s) => Ok(Contains(s, key))
    case JArray(items) => Ok(JString(key) in items)
    case _ => Raise(TypeError("argument is not iterable"))
  }
}
