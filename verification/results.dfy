/** Failure-carrying values shared by the other modules: a missing value and
    a value-or-error outcome (a resolved or rejected promise, a run that
    succeeded or failed). */
module Results {

  datatype Option<+T> = None | Some(value: T)

  datatype Result<+T, +E> = Ok(value: T) | Err(error: E)

  /** The value a JavaScript promise rejects with: an `Error` object with its
      message, a bare string, or some other value (a file reader's error event). */
  datatype Rejection = ErrorObject(message: string) | StringReason(reason: string) | OtherReason
}
