/**
 * Parsed JSON values, as JSON.parse or Express's body parser hand them to
 * the handlers, and JavaScript's truthiness on them.  Numbers are kept
 * integral: no handler here does arithmetic on a request body.
 */
module Json {

  datatype Json =
    | JNull
    | JBool(b: bool)
    | JNum(n: int)
    | JStr(s: string)
    | JArr(items: seq<Json>)
    | JObj(fields: map<string, Json>)

  /** `if (value)` in JavaScript: null, false, 0 and "" are falsy, everything else is truthy. */
  predicate Truthy(v: Json)
  {
    match v
    case JNull => false
    case JBool(b) => b
    case JNum(n) => n != 0
    case JStr(s) => s != ""
    case JArr(_) => true
    case JObj(_) => true
  }
}
