/**
 * The optional value used across the model for absent keys, unset errors and
 * missing calls, and the success-or-failure value of an operation that can throw.
 */
module Wrappers {

  datatype Option<T> = None | Some(value: T)

  datatype Result<T, E> = Success(value: T) | Failure(error: E)
}
