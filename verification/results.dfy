/** Optional values and success/failure results shared by every module of the model. */
module Results {

  /** A value that may be absent, as a field of a JSON request body may be. */
  datatype Option<+T> = None | Some(value: T)

  /** The outcome of a store operation: the new value or the database error. */
  datatype Result<+T, +E> = Success(value: T) | Failure(error: E)
}
