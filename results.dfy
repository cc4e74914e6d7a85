/** Option and Result values standing in for Python's `None` and raised exceptions. */
module Results {

  /** A value that may be absent, as `X | None` is in Python. */
  datatype Option<+T> = None | Some(value: T)

  /** Either the value an operation returns or the exception it raises. */
  datatype Result<+T, +E> = Success(value: T) | Failure(error: E)
}
