/** Wrappers: `Option` stands for JavaScript's `undefined`-or-value,
    `Result` for a call that either returns or throws. */
module Wrappers {
  datatype Option<+T> = None | Some(value: T)

  datatype Result<+R, +E> = Success(value: R) | Failure(error: E)
}
