/** Failure-carrying datatypes shared by the modules of the post domain. */
module Wrappers {

  /** A value that may be absent: an optional field, or a lookup that found nothing. */
  datatype Option<+T> = None | Some(value: T)

  /** The outcome of a service call that may throw: a value or an error. */
  datatype Result<+R, +E> = Success(value: R) | Failure(error: E)
}
