/** Optional values: a JavaScript `null`/`undefined`, and NaN where a
    percentage divides by zero, are both written `None`. */
module Wrappers {
  datatype Option<T> = None | Some(value: T) {
    /** `x || d` style defaulting when the only falsy value is absence. */
    function GetOr(d: T): T {
      if Some? then value else d
    }
  }

  /** Outcome of a backend call: a value, or an error code as the client reports it. */
  datatype Result<T> = Success(value: T) | Failure(error: string)
}
