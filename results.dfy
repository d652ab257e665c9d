/** Failure-carrying wrappers used by the model: a missing value, a value or
    an error (a Python exception that escapes), and pass/fail without a value. */
module Results {

  datatype Option<+T> = None | Some(value: T)

  datatype Result<+T, +E> = Ok(value: T) | Err(error: E)

  datatype Outcome<+E> = Pass | Fail(error: E)
}
