/** Absence and failure as values: the model's stand-ins for None and for raised exceptions. */
module Wrappers {

  datatype Option<+T> = None | Some(value: T)

  /** A query parameter read as `int(params.get(name, default))`. */
  datatype IntParam = Absent | Malformed | Value(value: int)

  /** A request either completes or raises; a raised error rolls the whole request back. */
  datatype Result<+T, +E> = Success(value: T) | Failure(error: E) {

    predicate IsFailure() {
      Failure?
    }

    function PropagateFailure<U>(): Result<U, E>
      requires Failure?
    {
      Failure(error)
    }

    function Extract(): T
      requires Success?
    {
      value
    }
  }
}
