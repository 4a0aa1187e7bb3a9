/** Option and Result values standing for the source's null returns and
    thrown exceptions. */
module Wrappers {
  datatype Option<T> = None | Some(value: T)

  /** Either a value, or the exception the source throws. */
  datatype Result<T, E> = Ok(value: T) | Err(error: E)

  /** The outcome of an operation that returns nothing but may throw. */
  datatype Outcome<E> = Pass | Fail(error: E)

  function Min(a: int, b: int): int { if a < b then a else b }
  function Max(a: int, b: int): int { if a < b then b else a }
}
