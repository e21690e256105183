/** JavaScript values as the TypeScript sources see them after `res.json()`,
    and the truthiness rules behind `||`, `??` and `!!`. */
module Js {

  /** `None` stands for a key that is absent, `undefined` or `null`. */
  datatype Option<+T> = None | Some(value: T) {
    function GetOr(default: T): T {
      if Some? then value else default
    }
  }

  datatype Result<+T, +E> = Ok(value: T) | Err(error: E)

  /** A JSON scalar; `Undefined` is an absent key. */
  datatype Scalar = Undefined | Null | Bool(b: bool) | Num(n: int) | Str(s: string)

  /** JavaScript truthiness of a scalar (`NaN` is not modelled). */
  predicate Truthy(v: Scalar) {
    match v
    case Undefined => false
    case Null => false
    case Bool(b) => b
    case Num(n) => n != 0
    case Str(s) => s != ""
  }

  /** An optional string is truthy when it is present and not empty. */
  predicate Present(s: Option<string>) {
    s.Some? && s.value != ""
  }

  /** `a || b` where `b` is a string. */
  function OrString(a: Option<string>, b: string): string {
    if Present(a) then a.value else b
  }

  /** `a || null`: a falsy string becomes `null`. */
  function OrNull(a: Option<string>): Option<string> {
    if Present(a) then a else None
  }

  /** How a browser `fetch` followed by `res.json()` settles: the request is
      rejected, or a response arrives with its `ok` flag and its parsed body
      (`None` when `res.json()` throws). */
  datatype Fetch<B> = Rejected | Settled(ok: bool, body: Option<B>) {
    /** The parsed body of an ok response, when there is one. */
    predicate Delivered() {
      Settled? && ok && body.Some?
    }
  }

  /** `a ?? b`: only `null`/`undefined` fall through. */
  function Coalesce<T>(a: Option<T>, b: Option<T>): Option<T> {
    if a.Some? then a else b
  }
}
