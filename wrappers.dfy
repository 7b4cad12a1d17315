/** Failure-compatible wrappers shared by every module of the model.

    The source reports every failure by throwing `new Error(message)`; callers
    (and the HTTP error classifier) only ever look at the message text, so a
    failure is modelled as `Err(message)` carrying the exact source message. */
module Wrappers {

  datatype Option<+T> = None | Some(value: T)

  datatype Result<+T> = Ok(value: T) | Err(message: string) {

    predicate IsFailure() {
      Err?
    }

    function PropagateFailure<U>(): Result<U>
      requires Err?
    {
      Err(message)
    }

    function Extract(): T
      requires Ok?
    {
      value
    }
  }
}
