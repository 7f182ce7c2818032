/** Outcome types shared by the puzzle models: a Python exception raised by the
    source becomes an `Err` value carrying the exception's class. */
module Results {

  /** The Python exception classes the modelled code can raise. */
  datatype Error = IndexError | ValueError | AssertionError

  datatype Result<+T> = Ok(value: T) | Err(error: Error)

  datatype Option<+T> = None | Some(value: T)
}
