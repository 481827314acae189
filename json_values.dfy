/**
 * The values `response.json()` decodes to, with the two Python operations the client
 * applies to them: truthiness (`if x:`, `x or y`) and `dict.get` with a default.
 */
module JsonValues {

  /** A decoded JSON value. Numbers are kept as integers. */
  datatype Json =
    | Null
    | Bool(b: bool)
    | Num(n: int)
    | Str(s: string)
    | Arr(items: seq<Json>)
    | Obj(fields: map<string, Json>)

  /** Python's `bool(x)` for a decoded value: false for None, False, 0 and empty containers. */
  predicate Truthy(j: Json)
  {
    match j
    case Null => false
    case Bool(b) => b
    case Num(n) => n != 0
    case Str(s) => s != []
    case Arr(items) => items != []
    case Obj(fields) => fields != map[]
  }

  /** `d.get(key, default)` on a dict. */
  function Get(d: Json, key: string, default: Json): Json
    requires d.Obj?
  {
    if key in d.fields then d.fields[key] else default
  }
}
