/**
 * Decoded payloads as PHP sees them after `json_decode($body, true)`:
 * JSON objects become associative arrays, JSON lists become lists, and
 * scalars stay scalars. Prices are floats in the source; they are kept
 * as opaque reals here.
 */
module Json {

  datatype Value =
    | Null
    | Bool(b: bool)
    | Int(i: int)
    | Float(x: real)
    | Str(s: string)
    | Arr(items: seq<Value>)
    | Obj(fields: map<string, Value>)

  /** PHP truthiness of a value, as used by `if ($cachedProduct)`. */
  predicate Truthy(v: Value)
  {
    match v
    case Null => false
    case Bool(b) => b
    case Int(i) => i != 0
    case Float(x) => x != 0.0
    case Str(s) => s != "" && s != "0"
    case Arr(items) => |items| > 0
    case Obj(fields) => |fields| > 0
  }

  /**
   * `is_array($v) ? $v : (array) $v`, restricted to the string keys a DTO
   * can look up: a list or a scalar cast to an array has only integer keys,
   * and `(array) null` is empty, so neither has any string key.
   */
  function AsArray(v: Value): map<string, Value>
  {
    if v.Obj? then v.fields else map[]
  }

  /** `$array[$key] ?? null`: a missing key and a null value both give null. */
  function Coalesce(fields: map<string, Value>, key: string): Value
  {
    if key in fields then fields[key] else Null
  }
}
