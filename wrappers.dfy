/** Optional values and error-carrying results. Python signals "nothing" with
    None and errors with exceptions; the model makes both explicit. */
module Wrappers {

  datatype Option<+T> = None | Some(value: T)

  /** The outcome of a computation that returns a value or raises. */
  datatype Result<+T, +E> = Success(value: T) | Failure(error: E)

  /** The outcome of a computation that returns nothing or raises. */
  datatype Outcome<+E> = Pass | Fail(error: E)
}
