/** Option and Result values used for the application's "return or raise" code paths. */
module Outcomes {

  datatype Option<+T> = None | Some(value: T)

  /** A cleaner either returns a value or raises a validation error carrying a message. */
  datatype Result<+T> = Ok(value: T) | Invalid(message: string)

  /** A model-level `clean()` either passes or raises an error keyed by one field. */
  datatype Check = Pass | Fail(field: string, message: string)
}
