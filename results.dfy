/** Optional values and error-or-value results, used wherever the Python code
    returns None or raises an exception that a caller is expected to handle. */
module Results {

  /** A value that may be absent: Python's None. */
  datatype Option<+T> = None | Some(value: T)

  /** A value, or the exception that was raised instead of returning one. */
  datatype Result<+T, +E> = Ok(value: T) | Err(error: E)

  /** Success without a value, or the exception that was raised. */
  datatype Outcome<+E> = Pass | Fail(error: E)
}
