/** Failure-carrying result types shared by the converter model. */
module Wrappers {

  /** A value, or no value (the converter's NaN for an unknown unit). */
  datatype Option<+T> = None | Some(value: T)

  /** A value, or the message of the error the service throws. */
  datatype Result<+R, +E> = Success(value: R) | Failure(error: E)
}
