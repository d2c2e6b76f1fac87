/** JSON documents as Python's `json` module reads and writes them (numbers restricted to integers). */
module Json {
  import opened Wrappers

  datatype Json =
    | JNull
    | JBool(b: bool)
    | JNumber(n: int)
    | JString(s: string)
    | JArray(items: seq<Json>)
    | JObject(members: map<string, Json>)
  {
    /** `value.get(key)` on a decoded object; `None` for a missing key and for a non-object. */
    function Member(key: string): (r: Option<Json>)
      ensures r.Some? <==> JObject? && key in members
      ensures r.Some? ==> r.value == members[key]
    {
      if JObject? && key in members then Some(members[key]) else None
    }
  }
}
