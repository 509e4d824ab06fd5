/** Optional values and error results shared by every module of the model. */
module Wrappers {
  /** A value or the C# `null` the analyser returns when it has no answer. */
  datatype Option<T> = None | Some(value: T)

  /** The outcome of an operation that the analyser may abort with an exception. */
  datatype Result<T, E> = Ok(value: T) | Err(error: E) {
    predicate IsFailure() { Err? }
  }
}
