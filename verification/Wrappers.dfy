/** Results that may be absent, as the source's undefined and its exceptions are. */
module Wrappers {
  datatype Option<+T> = None | Some(value: T)

  datatype Result<+T> = Success(value: T) | Failure
}
