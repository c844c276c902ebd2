/**
  JSON documents as Python's `json` module hands them to the pipeline:
  `None`, booleans, numbers, strings, lists and dicts, together with the
  two Python operations the pipeline applies to them without checking
  their type first: truthiness (`if x:`) and `dict.get(key, default)`.
 */
module Json {

  /** A decoded JSON value. Numbers are kept as integers. */
  datatype Json =
    | Null
    | Bool(b: bool)
    | Num(n: int)
    | Str(s: string)
    | Arr(items: seq<Json>)
    | Obj(fields: map<string, Json>)

  /** Python truthiness: `None`, `False`, `0`, `""`, `[]` and `{}` are false. */
  predicate Truthy(j: Json)
  {
    match j
    case Null => false
    case Bool(b) => b
    case Num(n) => n != 0
    case Str(s) => s != []
    case Arr(items) => items != []
    case Obj(fields) => fields != map[]
  }

  /** `d.get(key, default)` on a dict. */
  function Get(d: map<string, Json>, key: string, default: Json): (v: Json)
    ensures key in d ==> v == d[key]
    ensures key !in d ==> v == default
  {
    if key in d then d[key] else default
  }
}
