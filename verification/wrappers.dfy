/** Failure-compatible result types shared by the model. */
module Wrappers {

  /** A value that may be absent; models a trait member a specialisation does not declare. */
  datatype Option<+T> = None | Some(value: T)

  /** The outcome of an operation whose source dereferences something that may not exist. */
  datatype Result<+R, +E> = Ok(value: R) | Err(error: E)
}
