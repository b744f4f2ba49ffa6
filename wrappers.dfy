/** Failure-compatible result types shared by every module of the model. */
module Wrappers {

  datatype Option<+T> = None | Some(value: T)

  /** The value of a call that either returns or throws. */
  datatype Result<+T, +E> = Ok(value: T) | Err(error: E) {
    predicate IsFailure() { Err? }
    function PropagateFailure<U>(): Result<U, E> requires Err? { Err(error) }
    function Extract(): T requires Ok? { value }
  }

  /** The value of a check that either passes or throws. */
  datatype Outcome<+E> = Pass | Fail(error: E) {
    predicate IsFailure() { Fail? }
    function PropagateFailure<U>(): Result<U, E> requires Fail? { Err(error) }
  }

  /** `assert(condition, ...)`: passes when the condition holds, throws `error` otherwise. */
  function Need<E>(condition: bool, error: E): Outcome<E>
  {
    if condition then Pass else Fail(error)
  }
}
