// The exceptions the services throw, by kind, and the result of an
// operation that either returns a value or throws one of them.

module Outcomes {
  /**
   * NotFound: the id names no stored row. AccessDenied: the row belongs to
   * another user (or, for a type-mapping rule, is a system default).
   * NullPointer: a null field is dereferenced. AlreadyRunning: a pipeline run
   * is started while another is going on. DuplicateRule: the user already has
   * a rule for that Oracle type.
   */
  datatype Failure = NotFound | AccessDenied | NullPointer | AlreadyRunning | DuplicateRule

  datatype Outcome<T> = Ok(value: T) | Failed(failure: Failure)
}
