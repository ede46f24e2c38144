/** Optional values and the failures the modelled Java code can raise. */
module Outcomes {

  datatype Option<+T> = None | Some(value: T)

  /** The runtime exceptions the rule engine can throw; each one ends the game loop. */
  datatype Error =
    | IndexOutOfBounds   // `ArrayIndexOutOfBoundsException` on the `hearts` array
    | DivisionByZero     // `ArithmeticException` from an `int` division

  datatype Result<+T> = Success(value: T) | Failure(error: Error) {
    predicate IsFailure() {
      Failure?
    }

    function PropagateFailure<U>(): Result<U>
      requires Failure?
    {
      Failure(error)
    }

    function Extract(): T
      requires Success?
    {
      value
    }
  }
}
