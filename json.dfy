/** The Python values that `json.loads` and `resp.json()` produce, with
    Python's truth test and `dict.get`. Python's `None` is `Null`. */
module PyJson {
  import opened Text

  datatype Json =
    | Null
    | Bool(b: bool)
    | Int(i: int)
    | Str(s: string)
    | List(items: seq<Json>)
    | Object(fields: map<string, Json>)

  /** Python's `bool(v)`. */
  predicate Truthy(v: Json) {
    match v
    case Null => false
    case Bool(b) => b
    case Int(i) => i != 0
    case Str(s) => s != []
    case List(xs) => xs != []
    case Object(m) => m != map[]
  }

  /** Python's `type(v).__name__`. */
  function TypeName(v: Json): string {
    match v
    case Null => "NoneType"
    case Bool(_) => "bool"
    case Int(_) => "int"
    case Str(_) => "str"
    case List(_) => "list"
    case Object(_) => "dict"
  }

  /** `str(e)` of the AttributeError raised by `v.get(...)` on a non-dict. */
  function NoGetError(v: Json): string {
    "'" + TypeName(v) + "' object has no attribute 'get'"
  }

  /** Python's `m.get(key, default)`. */
  function Get(m: map<string, Json>, key: string, default: Json): Json {
    if key in m then m[key] else default
  }

  /** Python's `str(v)` for the scalar values; a list or dict is shown as
      `...` (Python prints its repr). */
  function Display(v: Json): string {
    match v
    case Null => "None"
    case Bool(b) => if b then "True" else "False"
    case Int(i) => IntToString(i)
    case Str(s) => s
    case List(_) => "..."
    case Object(_) => "..."
  }
}
