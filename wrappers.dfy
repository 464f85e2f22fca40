/** Optional values and results with an error, as used throughout the model. */
module Wrappers {

  /** A value that may be missing, such as a NULL column or an unset attribute. */
  datatype Option<+T> = None | Some(value: T)

  /** The outcome of a check that either yields a value or names what went wrong. */
  datatype Result<+T, +E> = Ok(value: T) | Err(error: E)
}
