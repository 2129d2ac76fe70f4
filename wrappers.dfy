/** Option and Result values used across the model in place of .NET's null and exceptions. */
module Wrappers {
  datatype Option<T> = None | Some(value: T)

  /** The outcome of an operation that returns a value or throws. */
  datatype Result<T, E> = Success(value: T) | Failure(error: E) {
    predicate IsFailure() { Failure? }
  }

  datatype Unit = Unit
}

/** The .NET primitive ranges the source relies on. */
module Numeric {
  /** System.Byte. */
  type byte = x: int | 0 <= x < 256

  const Int32Min: int := -0x8000_0000
  const Int32Max: int := 0x7FFF_FFFF
  const Int64Min: int := -0x8000_0000_0000_0000
  const Int64Max: int := 0x7FFF_FFFF_FFFF_FFFF

  /** System.Int32. */
  predicate IsInt32(n: int) { Int32Min <= n <= Int32Max }

  /** System.Int64. */
  predicate IsInt64(n: int) { Int64Min <= n <= Int64Max }
}
