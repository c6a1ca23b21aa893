/** Failure-carrying results used across the model. */
module Wrappers {

  /** A value that may be missing: Python's IndexError on `split(...)[k]`
      and ValueError on `int(...)` both surface as `None`. */
  datatype Option<+T> = None | Some(value: T)

  /** A value or the reason it could not be produced. */
  datatype Result<+T, +E> = Success(value: T) | Failure(error: E)
}
