/** Failure-carrying datatypes shared by the whole model: an optional value and
    a value-or-error result, standing in for Swift optionals and `throws`. */
module Wrappers {

  /** Swift's `Optional`: a value or nothing. */
  datatype Option<+T> = None | Some(value: T)

  /** The outcome of a throwing Swift call: the returned value or the thrown error. */
  datatype Result<+T, +E> = Success(value: T) | Failure(error: E)

  /** The smaller of two integers, as Swift's `min`. */
  function Min(a: int, b: int): int
  {
    if a <= b then a else b
  }
}
