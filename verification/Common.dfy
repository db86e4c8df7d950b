/** Vocabulary shared by every module: optional values, results and durations. */
module Common {

  datatype Option<+T> = None | Some(value: T)

  datatype Result<+T, +E> = Ok(value: T) | Err(error: E)

  /** Durations and instants are integers counting nanoseconds, as in Go's time package. */
  const SECOND: int := 1_000_000_000
  const MINUTE: int := 60 * SECOND

  function Min(a: int, b: int): int {
    if a <= b then a else b
  }

  function Max(a: int, b: int): int {
    if a >= b then a else b
  }
}
