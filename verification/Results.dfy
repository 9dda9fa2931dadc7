/** Optional values, and outcomes of operations that may be rejected. */
module Results {

  datatype Option<+T> = None | Some(value: T)

  /** A lookup of a missing key is not caught where a rejected value is. */
  datatype Error = Rejected | MissingKey

  datatype Result<+T> = Failure(error: Error) | Success(value: T)
}
