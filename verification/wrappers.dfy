/** Failure-carrying wrappers shared by every module of the model. */
module Wrappers {

  datatype Option<+T> = None | Some(value: T)

  /** Rust's `Result`: a value or an error. */
  datatype Result<+T, +E> = Ok(value: T) | Err(error: E) {
    predicate IsFailure() { Err? }

    function PropagateFailure<U>(): Result<U, E>
      requires Err?
    {
      Err(error)
    }

    function Extract(): T
      requires Ok?
    {
      value
    }
  }

  /** The panic messages of `Option::unwrap` and `Result::unwrap`. */
  const UNWRAP_NONE: string := "called `Option::unwrap()` on a `None` value"
  const UNWRAP_ERR: string := "called `Result::unwrap()` on an `Err` value"

  /** The outcome of code that may panic (an `unwrap`, an `expect`, an
      out-of-range index or an explicit `panic!`): either it finishes with a
      value or the thread panics with a reason. */
  datatype Outcome<+T> = Value(value: T) | Panic(reason: string) {
    predicate IsFailure() { Panic? }

    function PropagateFailure<U>(): Outcome<U>
      requires Panic?
    {
      Panic(reason)
    }

    function Extract(): T
      requires Value?
    {
      value
    }
  }
}
