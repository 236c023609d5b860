/**
 * The JSON-like values the Python code passes around in its dictionaries, with the
 * two Python operations the orchestrator applies to them: truthiness (`not v`) and
 * the text rendering `str(v)` used inside f-strings.
 */
module JsonValue {
  import Text

  datatype Json =
    | JNull
    | JBool(b: bool)
    | JInt(i: int)
    | JFloat(x: real)
    | JStr(s: string)
    | JArr(items: seq<Json>)
    | JObj(fields: map<string, Json>)

  /** Python truthiness: `None`, `False`, zero, and empty strings, lists and dicts are false. */
  predicate Truthy(v: Json) {
    match v
    case JNull => false
    case JBool(b) => b
    case JInt(i) => i != 0
    case JFloat(x) => x != 0.0
    case JStr(s) => s != ""
    case JArr(items) => items != []
    case JObj(fields) => fields != map[]
  }

  /** `dict.get(key, default)`. */
  function Get(m: map<string, Json>, key: string, default: Json): Json {
    if key in m then m[key] else default
  }

  /** `str(v)`, exact for `None`, booleans, integers and strings. */
  function Str(v: Json): string
  {
    match v
    case JNull => "None"
    case JBool(b) => if b then "True" else "False"
    case JInt(i) => if i < 0 then "-" + Text.NatToString(-i) else Text.NatToString(i)
    case JStr(s) => s
    case _ => Unrendered
  }

  /** What the model prints in place of `str()` of a float, list or dict. */
  const Unrendered: string := "<value>"
}
