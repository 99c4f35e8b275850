/** Presence, success and failure values shared by the other modules. */
module Outcomes {

  /** An optional value; `None` plays the part of Go's invalid zero `netip.Addr`
      and of a nil error. */
  datatype Option<+T> = None | Some(value: T)

  /** A value or the error that prevented it (Go's `(T, error)` pair). */
  datatype Result<+T, +E> = Success(value: T) | Failure(error: E)

  /** The verdict of a check: `Pass` is a nil error, `Fail` carries the error. */
  datatype Outcome<+E> = Pass | Fail(error: E)
}
