/** JavaScript values as the client code uses them: truthiness, strict equality, `||`, and the
    settled result of an awaited service call. */
module Js {
  import opened Wrappers

  /** A JavaScript value. Strict equality `===` is equality of these values (objects by reference). */
  datatype JsValue = Undefined | Null | Bool(b: bool) | Num(n: int) | Str(s: string) | Obj(ref: nat)

  /** `!!v` (NaN is not modelled among the numbers). */
  predicate Truthy(v: JsValue) {
    match v
    case Undefined => false
    case Null => false
    case Bool(b) => b
    case Num(n) => n != 0
    case Str(s) => s != ""
    case Obj(_) => true
  }

  /** `a || b` */
  function Or(a: JsValue, b: JsValue): (r: JsValue)
    ensures Truthy(a) ==> r == a
    ensures !Truthy(a) ==> r == b
  {
    if Truthy(a) then a else b
  }

  /** How an awaited service call settled: with a value, or by throwing an error whose
      `response.data.message` is `message` (None when the error carries none). */
  datatype Outcome<T> = Resolved(value: T) | Rejected(message: Option<string>)

  /** `error.response?.data?.message || fallback` */
  function ErrorText(message: Option<string>, fallback: string): (r: string)
    ensures message.Some? && message.value != "" ==> r == message.value
    ensures message.None? || message.value == "" ==> r == fallback
  {
    if message.Some? && message.value != "" then message.value else fallback
  }
}
