/** Failure-carrying values used in place of Rust's `Option` and `anyhow::Result`. */
module Results {

  /** An optional value, as returned by `Iterator::position`. */
  datatype Option<+T> = None | Some(value: T)

  /** A value or the reason it could not be produced. */
  datatype Result<+T, +E> = Success(value: T) | Failure(error: E)
}
