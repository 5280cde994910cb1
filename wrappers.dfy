/** Option and Result, the two failure-compatible wrappers the model uses in place of
    `undefined` and of thrown `Error`s. An `Err` carries the message the source throws. */
module Wrappers {

  datatype Option<+T> = None | Some(value: T) {

    /** The `??` operator: the wrapped value, or `default` when absent. */
    function GetOr(default: T): T {
      match this
      case Some(v) => v
      case None => default
    }
  }

  datatype Result<+T, +E> = Ok(value: T) | Err(error: E) {

    predicate IsFailure() {
      Err?
    }

    function PropagateFailure<U>(): Result<U, E>
      requires Err?
    {
      Err(error)
    }

    function Extract(): T
      requires Ok?
    {
      value
    }
  }
}
