/** Failure-carrying values used in place of Rust's `Option` and of panics. */
module Wrappers {

  datatype Option<+T> = None | Some(value: T)

  /** `Failure` stands for a Rust panic, failed `assert!` or `todo!()`. */
  datatype Result<+R, +E> = Success(value: R) | Failure(error: E)
}
