/** Failure-compatible results standing for the C++ exceptions the two
    containers throw. */
module Exceptions {

  /** The standard exception types thrown by the containers. */
  datatype Exception =
    | BadTypeid    // std::bad_typeid: checked variant access or a move with no mover
    | BadCast      // std::bad_cast: checked `any` access
    | LogicError   // std::logic_error: copying an `any` whose payload cannot be cloned

  datatype Option<+T> = None | Some(value: T)

  /** A value, or the exception that was thrown instead. */
  datatype Result<+T> = Success(value: T) | Failure(error: Exception) {
    predicate IsFailure() { Failure? }

    function PropagateFailure<U>(): Result<U>
      requires Failure?
    {
      Failure(error)
    }

    function Extract(): T
      requires Success?
    {
      value
    }
  }

  /** Completion of an operation that returns nothing, or its exception. */
  datatype Outcome = Pass | Fail(error: Exception) {
    predicate IsFailure() { Fail? }

    function PropagateFailure(): Outcome
      requires Fail?
    {
      this
    }
  }
}
