/** Failure-compatible result types shared by the model. */
module Wrappers {

  /** The Python exceptions the extraction core can raise; each aborts the run. */
  datatype Error = IndexError | ValueError

  datatype Option<+T> = None | Some(value: T)

  /** The outcome of a Python call that either returns a value or raises. */
  datatype Result<+T> = Ok(value: T) | Err(error: Error) {

    predicate IsFailure() {
      Err?
    }

    function PropagateFailure<U>(): Result<U>
      requires Err?
    {
      Err(error)
    }

    function Extract(): T
      requires Ok?
    {
      value
    }
  }
}
