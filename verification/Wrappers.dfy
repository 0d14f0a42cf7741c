/** Failure-carrying results, used wherever the driver returns an error value. */
module Wrappers {

  datatype Option<+T> = None | Some(value: T)

  datatype Result<+T> = Ok(value: T) | Err {
    predicate IsFailure() { Err? }

    function PropagateFailure<U>(): Result<U>
      requires Err?
    { Err }

    function Extract(): T
      requires Ok?
    { value }
  }

  /** A check that returns only an error or nothing. */
  datatype Check = Pass | Fail
}
