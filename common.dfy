/** Wrappers shared by the modules of this model: the outcome of a lookup
    or of a validation step that can fail. */
module Common {

  datatype Option<+T> = None | Some(value: T)

  datatype Result<+T, +E> = Ok(value: T) | Err(error: E)

  /** The outcome of a check that returns nothing when it passes. */
  datatype Outcome<+E> = Pass | Fail(error: E)
}
