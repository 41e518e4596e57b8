/** Decoded JSON values, as the request handlers receive them. */
module Json {
  import opened Wrappers

  datatype JsonValue =
    | JNull
    | JBool(b: bool)
    | JNum(n: int)
    | JStr(s: string)
    | JArr(items: seq<JsonValue>)
    | JObj(fields: map<string, JsonValue>)

  /** `obj.get(key, default)` on a JSON object; `None` when `obj` is not an
    * object, where Python's `.get` raises. */
  function Get(obj: JsonValue, key: string, default: JsonValue): (r: Option<JsonValue>)
    ensures r.Some? <==> obj.JObj?
    ensures obj.JObj? && key in obj.fields ==> r == Some(obj.fields[key])
    ensures obj.JObj? && key !in obj.fields ==> r == Some(default)
  {
    match obj
    case JObj(fields) => Some(if key in fields then fields[key] else default)
    case _ => None
  }
}
