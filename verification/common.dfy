/** Failure-carrying wrappers shared by every module of the model. */
module Common {

  /** A value that may be absent: a missing column value, an unset field, a NaN. */
  datatype Option<+T> = None | Some(value: T)

  /** The outcome of an operation that raises on some inputs. */
  datatype Result<+T, +E> = Ok(value: T) | Err(error: E)
}
