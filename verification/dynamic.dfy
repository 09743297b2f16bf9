/** The dynamically typed values (`any`) that sit in a `jwt.MapClaims`
    and in the store's field-update map, and Go's comma-ok type assertions
    on them. */
module Dynamic {
  import opened Wrappers

  /** `Int64` is what the service puts into a claim map before signing;
      `Float64` is what `encoding/json` gives back for every number. */
  datatype Any = Str(s: string) | Int64(i: int) | Float64(x: real) | Bool(b: bool) | Null

  /** `m[key].(string)`: a missing key holds `nil`, which is not a string. */
  function AsString(m: map<string, Any>, key: string): (r: Option<string>)
    ensures r.Some? ==> key in m && m[key] == Str(r.value)
    ensures r.None? ==> key !in m || !m[key].Str?
  {
    if key in m && m[key].Str? then Some(m[key].s) else None
  }

  /** `m[key].(float64)`: an `int64` held under `key` does not pass. */
  function AsFloat64(m: map<string, Any>, key: string): (r: Option<real>)
    ensures r.Some? ==> key in m && m[key] == Float64(r.value)
    ensures r.None? ==> key !in m || !m[key].Float64?
  {
    if key in m && m[key].Float64? then Some(m[key].x) else None
  }

  /** What one value becomes after a JSON encode and decode into `any`. */
  function ThroughJsonValue(a: Any): Any {
    match a
    case Int64(i) => Float64(i as real)
    case _ => a
  }

  /** What a map becomes after a JSON encode and decode into `map[string]any`. */
  function ThroughJson(m: map<string, Any>): (r: map<string, Any>)
    ensures r.Keys == m.Keys
    ensures forall k :: k in m && m[k].Int64? ==> r[k] == Float64(m[k].i as real)
    ensures forall k :: k in m && !m[k].Int64? ==> r[k] == m[k]
  {
    map k | k in m :: ThroughJsonValue(m[k])
  }
}
