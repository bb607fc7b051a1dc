/** Option for a cell that may be missing, Result for a step that may raise. */
module Wrappers {

  /** A cell value: `None` is a missing value (pandas NaN / NaT). */
  datatype Option<+T> = None | Some(value: T)

  /** The outcome of a step that may raise an exception; usable with `:-`. */
  datatype Result<+T> = Ok(value: T) | Failed {

    predicate IsFailure() {
      Failed?
    }

    function PropagateFailure<U>(): Result<U>
      requires Failed?
    {
      Failed
    }

    function Extract(): T
      requires Ok?
    {
      value
    }
  }
}
