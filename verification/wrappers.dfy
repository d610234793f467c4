/** Failure-compatible wrappers shared by every module of the model. */
module Wrappers {

  /** An optional value; `None` models PHP's `null`/missing. */
  datatype Option<+T> = None | Some(value: T)

  /** Either a value or the message of the exception the source throws. */
  datatype Result<+R> = Success(value: R) | Failure(error: string) {
    predicate IsFailure() {
      Failure?
    }

    function PropagateFailure<U>(): Result<U>
      requires Failure?
    {
      Failure(error)
    }

    function Extract(): R
      requires Success?
    {
      value
    }
  }
}
