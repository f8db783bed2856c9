/**
 * JSON-like values as they cross the window boundary: what `postMessage`
 * delivers in `event.data` and what the host puts in `eventData`.
 */
module JsValues {

  /**
   * A JavaScript value of the kinds the bridge inspects. `Undefined` is
   * JavaScript's `undefined` (also what reading a missing property yields).
   * Numbers are modelled as integers; floating point is not part of the model.
   */
  datatype Value =
    | Undefined
    | Null
    | Bool(b: bool)
    | Num(n: int)
    | Str(s: string)
    | Obj(fields: map<string, Value>)

  /** Reading property `key` of a record: a missing key reads as `undefined`. */
  function Get(fields: map<string, Value>, key: string): Value
  {
    if key in fields then fields[key] else Undefined
  }

  /** `v === null || v === undefined`, the test behind `??`. */
  predicate Nullish(v: Value)
  {
    v.Undefined? || v.Null?
  }

  /** JavaScript truthiness, as used by `data ? … : …`. */
  predicate Truthy(v: Value)
  {
    match v
    case Undefined => false
    case Null => false
    case Bool(b) => b
    case Num(n) => n != 0
    case Str(s) => s != ""
    case Obj(_) => true
  }
}
