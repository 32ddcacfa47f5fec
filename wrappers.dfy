/** The option, result and outcome datatypes shared by the other modules. */
module Wrappers {

  /** A value that may be absent (`undefined` / `null` in the source). */
  datatype Option<T> = None | Some(value: T)

  /** A value, or the error that was thrown instead of producing it. */
  datatype Result<T, E> = Success(value: T) | Failure(error: E)

  /** Completion of an operation that returns nothing: it either returned or threw. */
  datatype Outcome<E> = Pass | Fail(error: E)
}
