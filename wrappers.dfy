/** Failure-carrying result types shared by the modules of this project. */
module Wrappers {

  /** An optional value: `None` where the source has nothing to return. */
  datatype Option<+T> = None | Some(value: T)

  /** Either a value or the error that the source would have thrown. */
  datatype Result<+R, +E> = Success(value: R) | Failure(error: E)
}
