/** Values that stand in for JavaScript's `null`/`undefined` and for promises
    that resolve or reject. */
module Outcomes {

  /** A value that may be absent (`null` or `undefined` in the source). */
  datatype Option<+T> = None | Some(value: T)

  /** The settled outcome of an awaited call: resolved with a value, or
      rejected/thrown with an error. */
  datatype Result<+T, +E> = Ok(value: T) | Err(error: E)

  /** What a rejected call or a `throw` in the client carries. */
  datatype Failure =
    | ServerError(message: string)   // a backend call rejected
    | NoTokenReceived                // `new Error("No token received")` in login
    | UndefinedRead(property: string) // TypeError: reading a property of undefined
    | NotAFunction(name: string)      // TypeError: calling an undefined value

  /** JavaScript truthiness of an optional string: absent and "" are falsy. */
  predicate Truthy(s: Option<string>) {
    s.Some? && s.value != ""
  }
}
