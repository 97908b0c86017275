/** Option and Result values used in place of Kotlin's nullable types and thrown exceptions. */
module Results {

  /** A Kotlin nullable value: `None` stands for `null`. */
  datatype Option<+T> = None | Some(value: T)

  /** The outcome of an operation that may throw: `Err` carries what would have been thrown. */
  datatype Result<+T, +E> = Ok(value: T) | Err(error: E)
}
