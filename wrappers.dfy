/** Small value wrappers shared by every module of the model. */
module Wrappers {

  /** A value that may be absent: Python's `None` and SQL's NULL. */
  datatype Option<+T> = None | Some(value: T)

  /**
   * Presence of one field of a request body, as pydantic's
   * `model_dump(exclude_unset=True)` sees it: a field the client did not
   * send is `Unset`; a field it sent (possibly as JSON `null`) is `Set`.
   */
  datatype Field<+T> = Unset | Set(value: T)

  /** The outcome of an operation that either yields a value or fails. */
  datatype Result<+T, +E> = Ok(value: T) | Err(error: E)
}
