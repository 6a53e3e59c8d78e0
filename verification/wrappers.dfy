/** Failure-carrying return values: the C code signals errors with NULL
    pointers and sentinel integers; the model uses these datatypes instead. */
module Wrappers {

  /** A value that may be absent (a NULL pointer or a missing symbol). */
  datatype Option<+T> = None | Some(value: T)

  /** Either a value or the reason it could not be produced. */
  datatype Result<+R, +E> = Success(value: R) | Failure(error: E)
}
