/** Failure-carrying values shared by every module of the model. */
module Wrappers {

  /** An optional value: Python's `X | None`. */
  datatype Option<T> = None | Some(value: T)

  /** The outcome of an operation that either returns a value or raises. */
  datatype Result<T, E> = Ok(value: T) | Err(error: E)

  /** The outcome of an operation that returns nothing or raises. */
  datatype Outcome<E> = Pass | Fail(error: E)
}
