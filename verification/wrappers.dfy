/** Option, Result and Outcome: the wrappers every module uses
    for a value that may be absent (`null`/`undefined`) or an operation that may throw. */
module Wrappers {

  datatype Option<+T> = None | Some(value: T) {
    /** `x ?? d` for an optional value. */
    function GetOr(default: T): T {
      match this
      case Some(v) => v
      case None => default
    }
  }

  /** Either a value or the error a service raises. */
  datatype Result<+T, +E> = Ok(value: T) | Err(error: E)

  /** Success or the error a void operation raises. */
  datatype Outcome<+E> = Pass | Fail(error: E)

  /** JavaScript truthiness of an optional string: present and not empty. */
  predicate Present(s: Option<string>) {
    s.Some? && s.value != ""
  }
}
