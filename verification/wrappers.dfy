/** Option and Result values standing in for JavaScript's null/undefined and for
    the `{ data, error }` pairs returned by the hosted database and storage clients. */
module Wrappers {

  datatype Option<+T> = None | Some(value: T) {

    /** The value, or `default` when absent (JavaScript's `x ?? default`). */
    function GetOr(default: T): T {
      match this
      case Some(v) => v
      case None => default
    }
  }

  /** Outcome of one call to an external service: a value, or an error message. */
  datatype Result<+T> = Ok(value: T) | Err(message: string)
}
