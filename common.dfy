/** Identifiers and outcome types shared by the user and statement modules. */
module Common {

  /** Entity identifiers. The repositories hand them out from a counter, so
      every stored record gets one that no earlier record of its kind has. */
  type Id = nat

  /** A value that may be missing, as a repository lookup that finds nothing. */
  datatype Option<+T> = None | Some(value: T)

  /** The outcome of a use case: the value it returns, or the error it throws. */
  datatype Result<+T, +E> = Success(value: T) | Failure(error: E)
}
