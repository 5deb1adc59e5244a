/** Failure-carrying result types shared by the whole model. */
module Wrappers {

  /** A value that may be missing: a name not found on the search path,
      a string that does not read as a number, a key absent from a dict. */
  datatype Option<+T> = None | Some(value: T)

  /** The outcome of an operation that the program can abandon by raising. */
  datatype Result<+R, +E> = Success(value: R) | Failure(error: E)
}
