/** Option and Result, shared by both components. */
module Wrappers {

  /** A value that may be absent: a null pointer, a missing map entry. */
  datatype Option<+T> = None | Some(value: T)

  /** A value or an error: llvm::Expected, StatusOr. */
  datatype Result<+R, +E> = Ok(value: R) | Fail(error: E)
}
