/** Optional values and success-or-failure results, the two shapes every
    asynchronous call of the client layer resolves to. A JavaScript `null` or
    `undefined` becomes `None`; a rejected promise becomes `Failure`. */
module Wrappers {

  datatype Option<+T> = None | Some(value: T) {

    /** Returns the value in Some or the given default when None */
    function GetOr(default: T): T {
      match this
      case Some(v) => v
      case None => default
    }
  }

  datatype Result<+R, +E> = Success(value: R) | Failure(error: E) {

    /** Applies `f` to a success value and passes a failure through unchanged */
    function MapValue<S>(f: R -> S): Result<S, E> {
      match this
      case Success(v) => Success(f(v))
      case Failure(e) => Failure(e)
    }
  }
}
