/** Optional values and outcomes of calls that may raise, used by every
    module of the model. */
module Outcomes {

  /** A Python `Optional[T]`: `None` or a present value. */
  datatype Option<+T> = None | Some(value: T)

  /** The outcome of a Python call that may raise: the value it returns, or
      the exception it raises (carried as a datatype of the caller's choice). */
  datatype Result<+T, +E> = Success(value: T) | Failure(error: E)
}
