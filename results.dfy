/** Failure-carrying values shared by the modules of this model. */
module Results {

  /** An optional value (Rust's `Option`). */
  datatype Option<T> = None | Some(value: T)

  /** A value or an error (Rust's `Result`, with `anyhow` errors as `E`). */
  datatype Result<T, E> = Ok(value: T) | Err(error: E)
}
