/** Results of operations that can refuse or fail, and values that may be absent. */
module Results {
  datatype Result<T> = Success(value: T) | Failure

  datatype Option<T> = None | Some(value: T)
}
