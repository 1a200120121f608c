/** Failure-compatible wrappers shared by every module of the model:
    Rust's `Option<T>`, `Result<T, E>` and a unit result that is either
    `Ok(())` or an error. */
module Wrappers {

  datatype Option<+T> = None | Some(value: T)

  datatype Result<+T, +E> = Success(value: T) | Failure(error: E)

  /** `Result<(), E>`: `Pass` is `Ok(())`. */
  datatype Outcome<+E> = Pass | Fail(error: E)
}
