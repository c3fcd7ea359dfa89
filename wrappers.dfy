/** Failure-carrying values used for the error returns (`eyre::Result`, `Option`)
    and for the fatal outcomes (`panic!`, `todo!`, `expect`) of the modelled code. */
module Wrappers {

  datatype Option<+T> = None | Some(value: T)

  datatype Result<+T, +E> = Success(value: T) | Failure(error: E) {
    predicate IsFailure() { Failure? }

    function PropagateFailure<U>(): Result<U, E>
      requires Failure?
    {
      Failure(error)
    }

    function Extract(): T
      requires Success?
    {
      value
    }
  }

  /** A result without a value: `Result<()>` in the source. */
  datatype Outcome<+E> = Pass | Fail(error: E)
}
