/** Failure-carrying datatypes shared by the model: Python's `None` and raised exceptions. */
module Wrappers {

  /** An optional value; `None` stands for Python's `None`. */
  datatype Option<+T> = None | Some(value: T)

  /** The outcome of an operation that may raise: `Err` carries the exception's kind. */
  datatype Result<+T, +E> = Ok(value: T) | Err(error: E)
}
