/** Optional values (JavaScript `undefined` versus a value) and results of
    operations that may throw. */
module Wrappers {

  /** `None` stands for `undefined`, `Some(v)` for a present value. */
  datatype Option<+T> = None | Some(value: T)

  /** `Failure(e)` stands for an operation that throws `e`. */
  datatype Result<+R, +E> = Success(value: R) | Failure(error: E)
}
