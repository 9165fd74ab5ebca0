/** Optional values and results with an error, used for nullable cells and
    for stages that can raise. */
module Wrappers {

  /** A nullable value: `None` stands for a missing cell (NaN / None / NaT). */
  datatype Option<+T> = None | Some(value: T)

  /** The outcome of a stage that either produces a value or raises. */
  datatype Result<+R, +E> = Success(value: R) | Failure(error: E) {

    predicate IsFailure() {
      Failure?
    }

    function PropagateFailure<U>(): Result<U, E>
      requires Failure?
    {
      Failure(error)
    }

    function Extract(): R
      requires Success?
    {
      value
    }
  }
}
