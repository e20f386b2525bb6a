/** Option and Result values for the error paths of the campaign scripts. */
module Wrappers {

  datatype Option<+T> = None | Some(value: T)

  /** A value or the exception that ended the computation; usable with `:-`. */
  datatype Result<+T, +E> = Ok(value: T) | Err(error: E) {

    predicate IsFailure() {
      Err?
    }

    function PropagateFailure<U>(): Result<U, E>
      requires Err?
    {
      Err(error)
    }

    function Extract(): T
      requires Ok?
    {
      value
    }
  }
}
