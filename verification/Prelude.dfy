/** Shared value types: optional values, results, request fields and bytes. */
module Prelude {
  datatype Option<+T> = None | Some(value: T)

  datatype Result<+T, +E> = Ok(value: T) | Err(error: E)

  /** A field of a request: not there, or there with a value or null. */
  datatype Field<+T> = Absent | Given(value: Option<T>)

  type byte = x: int | 0 <= x < 0x100
}
