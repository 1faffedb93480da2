/** The optional-value and success-or-error wrappers shared by the other modules. */
module Wrappers {

  datatype Option<+T> = None | Some(value: T)

  /** The outcome of an operation that the source either completes or aborts by throwing. */
  datatype Result<+T, +E> = Success(value: T) | Failure(error: E)
}
