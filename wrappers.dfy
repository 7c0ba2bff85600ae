/** Option, Result and Outcome, the return shapes of the Go (value, error) idiom. */
module Wrappers {
  datatype Option<T> = None | Some(value: T)

  /** A value, or the error the Go code returns in its place. */
  datatype Result<T, E> = Ok(value: T) | Err(error: E)

  /** What a Go function returning only `error` returns: nil (Pass) or an error. */
  datatype Outcome<E> = Pass | Fail(error: E)
}
