/** Optional values and results with an error, used where the bot returns
    Python's `None` or raises an exception. */
module Wrappers {

  /** `None` is Python's `None`; `Some(v)` a present value. */
  datatype Option<+T> = None | Some(value: T)

  /** `Failure(e)` stands for an exception the bot raises. */
  datatype Result<+R, +E> = Success(value: R) | Failure(error: E)
}
