/**
 * A request body after `json.loads`: the Python values a JSON document
 * decodes to. Booleans and integers are kept apart because the handlers
 * test `type(x) != int`, which rejects `True` and `False`; a JSON number
 * with a fraction or exponent decodes to a float and fails that test too.
 */
module JsonValues {

  datatype Json =
    | JNull
    | JBool(b: bool)
    | JInt(i: int)
    | JFloat(r: real)
    | JString(s: string)
    | JList(items: seq<Json>)
    | JObject(fields: map<string, Json>)

  /** Python's truthiness: `not x` holds exactly for these values. */
  predicate Falsy(x: Json) {
    match x
    case JNull => true
    case JBool(b) => !b
    case JInt(i) => i == 0
    case JFloat(r) => r == 0.0
    case JString(s) => s == ""
    case JList(items) => items == []
    case JObject(fields) => fields == map[]
  }
}
