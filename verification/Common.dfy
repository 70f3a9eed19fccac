/** Vocabulary shared by every module: identifiers, instants and optional columns. */
module Common {

  /** Row identifiers. The source uses random strings; only equality and a total order matter. */
  type Id = nat

  /** Instants in milliseconds, in place of ISO-8601 text. */
  type Time = int

  /** A nullable column or an optional argument. */
  datatype Option<+T> = None | Some(value: T)

  datatype Result<+T, +E> = Ok(value: T) | Err(error: E)

  /** The largest integer that a double holds together with all smaller ones. */
  const MAX_SAFE := 0x1F_FFFF_FFFF_FFFF

  function Max(a: int, b: int): int {
    if a < b then b else a
  }

  function Min(a: int, b: int): int {
    if a < b then a else b
  }
}
