/** The optional value used wherever the Python code returns `None` or raises a lookup
    error, and the result of a call that may raise. */
module Wrappers {

  datatype Option<+T> = None | Some(value: T)

  datatype Result<+T, +E> = Success(value: T) | Failure(error: E)
}
