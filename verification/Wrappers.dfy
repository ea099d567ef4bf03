/** Result types that stand for the source's return values and raised exceptions. */
module Wrappers {

  datatype Option<+T> = None | Some(value: T)

  /** A raised error carries its message; no property depends on the wording. */
  datatype Result<+T> = Success(value: T) | Failure(error: string)
}
