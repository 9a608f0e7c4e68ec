// Result types shared by every component of the model.
module Common {
  datatype Option<+T> = None | Some(value: T)

  /** A transaction either commits with a new state or rolls back with an error. */
  datatype Result<+T, +E> = Success(value: T) | Failure(error: E)

  function Min(a: int, b: int): int { if a < b then a else b }

  function Max(a: int, b: int): int { if a < b then b else a }
}
