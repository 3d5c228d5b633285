/** Result types for the exceptions of the startup code. */
module Wrappers {

  /** A value that may be absent (a C# `null` reference or a missing lookup). */
  datatype Option<+T> = None | Some(value: T)

  /** The completion of an operation: normal return, or the exception it throws. */
  datatype Outcome<+E> = Pass | Fail(error: E)
}
