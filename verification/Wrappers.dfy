/** Failure-carrying datatypes shared by the other modules. */
module Wrappers {
  datatype Option<+T> = None | Some(value: T)

  /** Ok is a normal return; Thrown is an exception that leaves the modelled function. */
  datatype Result<+T, +E> = Ok(value: T) | Thrown(error: E)
}
