/** Failure-compatible result types used for the instruction's `Result<()>` returns. */
module Wrappers {

  datatype Option<+T> = None | Some(value: T)

  /** A value or an error; usable with `:-`. */
  datatype Result<+T, +E> = Ok(value: T) | Err(error: E) {
    predicate IsFailure() { Err? }

    function PropagateFailure<U>(): Result<U, E>
      requires Err?
    {
      Err(error)
    }

    function Extract(): T
      requires Ok?
    {
      value
    }
  }

  /** The outcome of a step that returns nothing on success (Rust's `Result<()>`). */
  datatype Outcome<+E> = Pass | Fail(error: E)
}
