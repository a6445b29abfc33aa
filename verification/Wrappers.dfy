// Outcomes of operations that the C++ sources guard with CHECK macros.
module Wrappers {

  /** Ok, or the process stops at a failed CHECK. */
  datatype Result<+T> = Ok(value: T) | CheckFailed

  datatype Option<+T> = None | Some(value: T)
}
