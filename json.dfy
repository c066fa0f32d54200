/** The JSON values that `json.loads` hands back, and Python's truth test on them. */
module Json {
  import PyDict

  datatype Json =
    | JNull
    | JBool(b: bool)
    | JInt(i: int)
    | JReal(r: real)
    | JStr(s: string)
    | JList(items: seq<Json>)
    | JObj(fields: PyDict.Dict<Json>)

  /** `bool(v)`: `None`, `False`, zero, and empty strings, lists and dicts are falsy. */
  predicate Truthy(v: Json) {
    match v
    case JNull => false
    case JBool(b) => b
    case JInt(i) => i != 0
    case JReal(r) => r != 0.0
    case JStr(s) => |s| > 0
    case JList(items) => |items| > 0
    case JObj(fields) => |fields| > 0
  }

  /** `{"error": msg}`: the one-key object the query executor returns instead of raising. */
  function ErrorObject(msg: string): Json {
    JObj([("error", JStr(msg))])
  }

  predicate IsErrorObject(v: Json) {
    v.JObj? && |v.fields| == 1 && v.fields[0].0 == "error" && v.fields[0].1.JStr?
  }

  /** A non-empty list is exactly what the orchestrator counts as "records found". */
  predicate IsNonEmptyList(v: Json) {
    v.JList? && |v.items| > 0
  }

  /** The error object is a dict, so it is never taken for a list of records. */
  lemma ErrorObjectIsNotRecords(msg: string)
    ensures IsErrorObject(ErrorObject(msg))
    ensures !ErrorObject(msg).JList? && !IsNonEmptyList(ErrorObject(msg))
    ensures Truthy(ErrorObject(msg))
  {
  }
}
