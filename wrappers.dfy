/** Optional values and results with a message, shared by the other modules. */
module Wrappers {

  /** A value that may be absent; `None` stands for a missing field or a JSON null. */
  datatype Option<+T> = None | Some(value: T)

  /** The outcome of a check that can fail with a human-readable description. */
  datatype Result<+T> = Success(value: T) | Failure(error: string)
}
