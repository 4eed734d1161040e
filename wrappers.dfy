/** Failure-carrying datatypes shared by every module of the model. */
module Wrappers {

  /** A value that may be absent (Rust `Option`, a TypeScript `T | null`). */
  datatype Option<+T> = None | Some(value: T) {
    function GetOr(default: T): T {
      match this
      case Some(v) => v
      case None => default
    }
  }

  /** Rust `Result<T, String>`: a value or an error message. */
  datatype Result<+T, +E> = Success(value: T) | Failure(error: E)

  /** How an awaited `invoke` into the back end ended: it resolved with a value,
      or it rejected and the caught error was turned into the given text. */
  datatype Invoke<+T> = Returned(value: T) | Threw(error: string)

  /** JavaScript `a || b` on an optional string: `a` when it is present and
      non-empty (truthy), otherwise `b`. */
  function OrElse(a: Option<string>, b: string): (r: string)
    ensures a.Some? && a.value != "" ==> r == a.value
    ensures a.None? || a.value == "" ==> r == b
  {
    if a.Some? && a.value != "" then a.value else b
  }
}
