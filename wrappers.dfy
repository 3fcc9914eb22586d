/** Failure-carrying values: the model's stand-in for `undefined` and for thrown errors. */
module Wrappers {

  /** An optional value: `None` plays the part of an absent (`undefined`) property. */
  datatype Option<+T> = None | Some(value: T)

  /** The value of a call that either returns (`Success`) or throws (`Failure`). */
  datatype Result<+R, +E> = Success(value: R) | Failure(error: E)

  /** The value of a `void` call that either returns (`Pass`) or throws (`Fail`). */
  datatype Outcome<+E> = Pass | Fail(error: E)
}
