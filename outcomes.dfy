/** Success/failure wrappers shared by the importer and the exporter. */
module Outcomes {

  datatype Option<+T> = None | Some(value: T)

  /** A computation that yields a value or stops with an error. */
  datatype Result<+T, +E> = Success(value: T) | Failure(error: E)

  /** A computation that yields nothing but may stop with an error (an operator's `return False`). */
  datatype Outcome<+E> = Pass | Fail(error: E)
}
