/** Failure-compatible wrappers shared by every module of the model. */
module Wrappers {

  /** An optional value: `None` plays JavaScript's `undefined`. */
  datatype Option<+T> = None | Some(value: T)

  /** The outcome of an operation that may throw: `Err` carries what was thrown. */
  datatype Result<+T, +E> = Ok(value: T) | Err(error: E)

  /** The value inside `o`, or `d` when there is none. */
  function GetOr<T>(o: Option<T>, d: T): T
  {
    match o
    case Some(v) => v
    case None => d
  }
}
