/** Failure-carrying values shared by the other modules. */
module Results {
  datatype Option<T> = None | Some(value: T)

  /** Rust's `Result<T, E>`. */
  datatype Result<T, E> = Ok(value: T) | Err(error: E)
}
