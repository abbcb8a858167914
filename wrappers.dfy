/** Optional values and outcomes, the Dafny forms of Swift's `T?` and of a throwing call. */
module Wrappers {

  datatype Option<+T> = None | Some(value: T)

  datatype Result<+T, +E> = Success(value: T) | Failure(error: E)

}
