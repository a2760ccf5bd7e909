/** Optional values and error-carrying results, used wherever the Go code
    returns a value together with an `ok` flag, a nil reference or an `error`. */
module Wrappers {

  datatype Option<+T> = None | Some(value: T)

  /** A Go `(value, error)` pair: exactly one of the two is meaningful. */
  datatype Result<+T> = Ok(value: T) | Err(msg: string)
}
