/** Outcomes of operations that may refuse: the source's exceptions and absent values. */
module Results {
  datatype Option<+T> = None | Some(value: T)

  datatype Result<+T, +E> = Success(value: T) | Failure(error: E)
}
