/** Results of calls that the controller may refuse, and optional values. */
module Wrappers {
  datatype Option<+T> = None | Some(value: T)

  /** INVALID, CONFLICT and INTERNAL: a bad argument or clock, a stale revision, a broken lifecycle. */
  datatype Error = Invalid | Conflict | Internal

  datatype Result<+T> = Ok(value: T) | Err(error: Error) {
    predicate IsFailure() {
      Err?
    }

    function PropagateFailure<U>(): Result<U>
      requires Err?
    {
      Err(error)
    }

    function Extract(): T
      requires Ok?
    {
      value
    }
  }
}
