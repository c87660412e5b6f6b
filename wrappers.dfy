/**
 * Optional values and the two kinds of exception the modelled builtins throw.
 */
module Wrappers {

  datatype Option<+T> = None | Some(value: T)

  /** The ECMAScript error constructors the modelled code throws. */
  datatype ErrorKind = TypeError | RangeError

  /** The outcome of an operation that either returns a value or throws. */
  datatype Result<+T> = Ok(value: T) | Err(error: ErrorKind)
}
