/** Option and Result: a C# null reference and a thrown exception, as values. */
module Wrappers {

  /** `None` stands for a C# null reference. */
  datatype Option<+T> = None | Some(value: T)

  /** `Err` stands for an exception that escapes the operation. */
  datatype Result<+T, +E> = Ok(value: T) | Err(error: E)
}
