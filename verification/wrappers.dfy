/** Failure-carrying result types shared by the assembler modules. */
module Wrappers {

  datatype Option<+T> = None | Some(value: T)

  /** The value of a computation that can fail with an error of type E. */
  datatype Result<+T, +E> = Ok(value: T) | Err(error: E)

  /** The outcome of a step that produces no value, only success or an error. */
  datatype Outcome<+E> = Pass | Fail(error: E)
}
