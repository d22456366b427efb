/** Dynamic values: what a Python `dict` holds after `json.loads` or
    `yaml.safe_load`, what an OCR result's `metadata` and `structured_data`
    carry, and the truthiness Python's `if not x` applies to them. */
module Json {

  datatype Value =
    | Null
    | Bool(b: bool)
    | Int(i: int)
    | Num(r: real)
    | Str(s: string)
    | Arr(items: seq<Value>)
    | Obj(fields: map<string, Value>)

  /** Python truthiness: `None`, `False`, zero, and empty strings,
      lists and dicts are false; everything else is true. */
  predicate Truthy(v: Value) {
    match v
    case Null => false
    case Bool(b) => b
    case Int(i) => i != 0
    case Num(r) => r != 0.0
    case Str(s) => s != ""
    case Arr(items) => |items| > 0
    case Obj(fields) => |fields| > 0
  }

  /** `d.get(key, default)`. */
  function Get(d: map<string, Value>, key: string, default: Value): (v: Value)
    ensures key in d ==> v == d[key]
    ensures key !in d ==> v == default
  {
    if key in d then d[key] else default
  }

  /** `d.get(key)`: the value, or `None` when the key is absent. */
  function GetOrNull(d: map<string, Value>, key: string): Value {
    Get(d, key, Null)
  }
}
