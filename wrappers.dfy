/** Failure-compatible result type used for the error paths of the pipeline
    (operations that raise in the original program return `Failure`). */
module Wrappers {

  datatype Option<+T> = None | Some(value: T)

  datatype Result<+R, +E> = Success(value: R) | Failure(error: E)
}
