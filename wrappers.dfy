/** Failure-carrying result types shared by every module of the model. A C# exception
    thrown by a modelled operation becomes a `Failure`/`Fail` value carrying its message. */
module Wrappers {

  datatype Option<+T> = None | Some(value: T)

  datatype Result<+T, +E> = Success(value: T) | Failure(error: E)

  /** The outcome of an operation that returns nothing but may throw. */
  datatype Outcome<+E> = Pass | Fail(error: E)
}
