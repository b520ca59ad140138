/** Small wrapper types shared by every module of the model. */
module Base {

  /** A value that may be absent: Rust's `Option`, or a SQL NULL. */
  datatype Option<+T> = None | Some(value: T)

  /** The result of one call into the store: Rust's `Result<T, Error>`, with the
      error left opaque (the handlers never look inside it). */
  datatype Outcome<+T> = Ok(value: T) | Err

  /** The unit value that `Ok(())` carries. */
  datatype Unit = Unit
}
