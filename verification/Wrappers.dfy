/** The two result shapes shared by the modules of this project. */
module Wrappers {
  datatype Option<+T> = None | Some(value: T)

  /** A value, or the failure of an operation whose source throws or returns an error. */
  datatype Outcome<+T> = Ok(value: T) | Err {
    predicate IsFailure() {
      Err?
    }

    function PropagateFailure<U>(): Outcome<U>
      requires Err?
    {
      Err
    }

    function Extract(): T
      requires Ok?
    {
      value
    }
  }
}
