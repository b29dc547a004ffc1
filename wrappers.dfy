/** Option and Result datatypes used for the command's error paths. */
module Wrappers {

  datatype Option<+T> = None | Some(value: T)

  /** A command either yields a value or stops with the first error it meets. */
  datatype Result<+R, +E> = Ok(value: R) | Err(error: E)
}
