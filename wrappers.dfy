/** Python's `None` and raised exceptions, as datatypes. */
module Wrappers {

  /** A value or Python's `None`. */
  datatype Option<+T> = None | Some(value: T)

  /** A value, or the exception that was raised instead. */
  datatype Result<+R, +E> = Success(value: R) | Failure(error: E)

  /** Completion without a value, or the exception that was raised. */
  datatype Outcome<+E> = Completed | Raised(error: E)
}
