/** Option and Result. `None` stands for a value pandas leaves undefined (NaN, NaT);
    `Failure` for a call that raises an exception. */
module Wrappers {
  datatype Option<+T> = None | Some(value: T)

  datatype Result<+T, +E> = Success(value: T) | Failure(error: E)
}
