/** Values shared by the three request handlers: optional and fallible
    results, parsed JSON, and how Python treats those values (truthiness,
    type names, the text of the exceptions the handlers turn into bodies). */
module Values {

  datatype Option<+T> = None | Some(value: T)

  /** A result, or the text of the exception that stopped the computation. */
  datatype Result<+T> = Ok(value: T) | Err(error: string)

  /** A JSON value as `json.loads` hands it to Python (or `JSON.parse` to
      JavaScript). Numbers are integers in this model. */
  datatype Json =
    | JNull
    | JBool(b: bool)
    | JNum(n: int)
    | JStr(s: string)
    | JArray(items: seq<Json>)
    | JObject(fields: map<string, Json>)

  /** Python truthiness: `not v` is false exactly for these values. */
  predicate Truthy(v: Json) {
    match v
    case JNull => false
    case JBool(b) => b
    case JNum(n) => n != 0
    case JStr(s) => s != ""
    case JArray(xs) => xs != []
    case JObject(m) => m != map[]
  }

  /** `d.get(key, default)` on a Python dict. */
  function GetOr(d: map<string, Json>, key: string, default: Json): Json {
    if key in d then d[key] else default
  }

  /** The name Python gives the type of a JSON value. */
  function TypeName(v: Json): string {
    match v
    case JNull => "NoneType"
    case JBool(_) => "bool"
    case JNum(_) => "int"
    case JStr(_) => "str"
    case JArray(_) => "list"
    case JObject(_) => "dict"
  }

  /** `str(e)` of the AttributeError raised by `v.attr` when `v` lacks `attr`. */
  function AttributeErrorText(v: Json, attr: string): string {
    "'" + TypeName(v) + "' object has no attribute '" + attr + "'"
  }

  /** `str(e)` of the KeyError raised by `d[key]` for a missing key. */
  function KeyErrorText(key: string): string {
    "'" + key + "'"
  }
}
