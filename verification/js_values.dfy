/** JavaScript value conventions the services rely on: optional (possibly
    `undefined`) fields, truthiness, the `||` fallback and the `Result` of a
    call that may throw. */
module JsValues {

  /** A value that may be `undefined` (or `null`). */
  datatype Option<+T> = None | Some(value: T)

  /** A field of a request body, where JSON distinguishes a missing key
      (`undefined`) from an explicit `null`. */
  datatype Field<+T> = Undefined | Null | Defined(value: T)

  /** The stored value of a field: `null` and `undefined` both read back as
      missing. */
  function Stored<T>(f: Field<T>): (r: Option<T>)
    ensures r.Some? <==> f.Defined?
    ensures f.Defined? ==> r.value == f.value
  {
    if f.Defined? then Some(f.value) else None
  }

  /** The errors the modelled code can raise or propagate. */
  datatype Failure =
    | NotFound(message: string)                     // NestJS NotFoundException
    | DuplicateKey(collection: string, key: string) // MongoDB unique `_id` index violation
    | TypeError(message: string)                    // a property read on `undefined`

  /** The outcome of a call that either returns a value or throws. */
  datatype Result<+T> = Ok(value: T) | Err(error: Failure)

  /** JavaScript truthiness of an optional string: defined and not empty. */
  predicate Truthy(s: Option<string>) {
    s.Some? && s.value != ""
  }

  /** JavaScript truthiness of an optional boolean. */
  predicate IsTrue(b: Option<bool>) {
    b == Some(true)
  }

  /** `a || b` on optional strings. */
  function Or(a: Option<string>, b: Option<string>): (r: Option<string>)
    ensures Truthy(r) <==> Truthy(a) || Truthy(b)
  {
    if Truthy(a) then a else b
  }

  /** `a || fallback` for an optional string and a non-empty literal fallback. */
  function OrElse(a: Option<string>, fallback: string): (r: string)
    requires fallback != ""
    ensures r != ""
    ensures r == fallback || Some(r) == a
  {
    if Truthy(a) then a.value else fallback
  }

  /** `a || b` on optional objects (a `Date` object is always truthy). */
  function FirstDefined<T>(a: Option<T>, b: Option<T>): Option<T> {
    if a.Some? then a else b
  }

  /** Template-literal interpolation of an optional string: `${x}` prints
      `undefined` when the value is missing. */
  function Interpolate(s: Option<string>): string {
    if s.Some? then s.value else "undefined"
  }
}
