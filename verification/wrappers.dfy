/** Option and Result, the shapes the source uses for "absent" values and HTTP error replies. */
module Wrappers {

  datatype Option<+T> = None | Some(value: T)

  datatype Result<+R, +E> = Success(value: R) | Failure(error: E)
}
