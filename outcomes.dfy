/** Failure-compatible result types shared by the model. */
module Outcomes {

  /** Why a computation produced no value. */
  datatype Error =
    | DomainError(value: real)  // a value outside [0, 1] offered as a probability
    | NoBracket                 // the solver's bracket search ran out of fuel (the original loops forever)

  datatype Option<+T> = None | Some(value: T)

  datatype Result<+T> = Ok(value: T) | Err(error: Error) {
    predicate IsFailure() {
      Err?
    }

    function PropagateFailure<U>(): Result<U>
      requires Err?
    {
      Err(error)
    }

    function Extract(): T
      requires Ok?
    {
      value
    }
  }
}
