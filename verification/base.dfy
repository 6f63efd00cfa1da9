/** Small shared vocabulary: optional values, results, and the handful of
    JavaScript value shapes that reach the photo pipeline through JSON. */
module Base {

  datatype Option<+T> = None | Some(value: T) {
    function GetOr(default: T): T {
      match this
      case Some(v) => v
      case None => default
    }
  }

  datatype Result<+T, +E> = Success(value: T) | Failure(error: E)

  /** 10^21: from this magnitude on, JavaScript's `String(n)` switches to
      exponent form ("1e+21"). */
  const ExponentFormFrom := 1_000_000_000_000_000_000_000

  /** The integer numbers the model covers: those JavaScript prints as plain
      decimal digits. */
  type JsNumber = n: int | -ExponentFormFrom < n < ExponentFormFrom

  /** A JSON-decoded scalar as JavaScript sees it. Numbers are limited to
      integers printed in plain decimal; the sliders and JSON bodies of this
      system only carry those in normal use. */
  datatype JsValue = Undefined | Null | Bool(b: bool) | Number(n: JsNumber) | Str(s: string)

  /** JavaScript truthiness: `false`, `0`, `""`, `null` and `undefined` are falsy. */
  predicate Truthy(v: JsValue) {
    match v
    case Undefined => false
    case Null => false
    case Bool(b) => b
    case Number(n) => n != 0
    case Str(s) => s != ""
  }

  /** `null` or `undefined` (the values `??` and `!= null` test for). */
  predicate Nullish(v: JsValue) {
    v.Undefined? || v.Null?
  }

  /** `v || d` */
  function Or(v: JsValue, d: JsValue): JsValue {
    if Truthy(v) then v else d
  }

  /** `v ?? d` */
  function Coalesce(v: JsValue, d: JsValue): JsValue {
    if Nullish(v) then d else v
  }

  /** A string-valued field that may be absent; JavaScript treats `""` like absence. */
  predicate Present(o: Option<string>) {
    o.Some? && o.value != ""
  }
}
