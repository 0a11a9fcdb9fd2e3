/** Failure-carrying wrappers: `Option` for a reading that may be missing or a
    dictionary key that may be absent, `Result` for a step that may raise. */
module Wrappers {

  datatype Option<+T> = None | Some(value: T)

  datatype Result<+T, +E> = Success(value: T) | Failure(error: E)
}
