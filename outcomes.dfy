/** Outcomes of operations that can fail or that may give up. */
module Outcomes {

  /** A value that may be absent. */
  datatype Option<T> = None | Some(value: T)

  /** A value, or the error that replaced it. */
  datatype Result<T, E> = Ok(value: T) | Err(error: E)
}
