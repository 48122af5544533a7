/**
 * JSON scalar values as the portal's JavaScript code sees them, and the
 * JavaScript notion of truthiness that its `if (x)` / `x || y` tests use.
 * A missing property reads as `undefined`, which every test here treats
 * like `null`.
 */
module Json {

  datatype Value = Null | Bool(b: bool) | Num(n: int) | Str(s: string)
  {
    /** `Boolean(v)`: false for null/undefined, false, 0 and the empty string. */
    predicate Truthy() {
      match this
      case Null => false
      case Bool(b) => b
      case Num(n) => n != 0
      case Str(s) => s != ""
    }
  }

  /** A JSON object: property name to value. */
  type Object = map<string, Value>

  /** `obj.name`, with a missing property read as null/undefined. */
  function Get(obj: Object, name: string): Value
  {
    if name in obj then obj[name] else Null
  }
}
