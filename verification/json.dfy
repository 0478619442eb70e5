/** Parsed JSON values as the hub sees them after `json.loads`. */
module Json {
  import opened Wrappers

  datatype Json =
    | Null
    | Bool(b: bool)
    | Number(n: int)
    | Str(s: string)
    | List(items: seq<Json>)
    | Obj(fields: map<string, Json>)

  /** A JSON object, the only top-level shape exchanged with the hub. */
  type Message = map<string, Json>

  /** Python truthiness of a parsed value, as used by `if message[key]:`. */
  predicate Truthy(j: Json) {
    match j
    case Null => false
    case Bool(b) => b
    case Number(n) => n != 0
    case Str(s) => s != ""
    case List(xs) => xs != []
    case Obj(m) => |m| != 0
  }

  /** The integer a value compares equal to under Python's `==` (`true == 1`, `false == 0`). */
  function AsNumber(j: Json): (r: Option<int>)
    ensures r.Some? <==> j.Number? || j.Bool?
  {
    match j
    case Number(n) => Some(n)
    case Bool(b) => Some(if b then 1 else 0)
    case _ => None
  }
}
