/** Failure-carrying result types shared by every module of the model.
    A Go call returning `(value, error)` becomes a `Result`; a nil-able
    pointer or a map lookup that may miss becomes an `Option`. */
module Wrappers {

  datatype Option<+T> = None | Some(value: T)

  /** `Ok(v)` is a nil error with value `v`; `Err(msg)` is a non-nil error
      whose `Error()` text is `msg`. */
  datatype Result<+T> = Ok(value: T) | Err(msg: string)

  /** What a Go call does: it returns `value`, or it panics (a nil pointer
      dereference, or an explicit `panic`) with the given reason. */
  datatype Outcome<+T> = Returns(value: T) | Panics(reason: string)
}
