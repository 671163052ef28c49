module Wrappers {
  datatype Option<+T> = None | Some(value: T)

  /** Result of a call that the code guards with assertions. */
  datatype Outcome<+S> = Ok(s: S) | Aborted
}
