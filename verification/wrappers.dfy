/** `Option` and `Result` for the `Optional`/`null` results of the fetcher and for the call
    that throws. */
module Wrappers {

  /** Absence or presence of a value (`Optional.empty()` / `Optional.of(v)`). */
  datatype Option<+T> = None | Some(value: T)

  /** A computed value, or the error the computation raised instead. */
  datatype Result<+R, +E> = Success(value: R) | Failure(error: E)
}
