/** Optional and error-carrying values: the model's stand-ins for Python's `None`
    and for the exceptions the tracker catches and turns into `None`. */
module Wrappers {

  datatype Option<+T> = None | Some(value: T)

  datatype Result<+T, +E> = Success(value: T) | Failure(error: E)
}
