/** Option and Result values used by the validation model. */
module Wrappers {

  datatype Option<+T> = None | Some(value: T)

  /** The outcome of a validation: the parsed value, or the errors keyed by field. */
  datatype Result<+T, +E> = Ok(value: T) | Err(error: E)
}
