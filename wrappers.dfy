/** Optional values and results, standing in for nullable pointers and thrown errors. */
module Wrappers {

  /** A nullable pointer: `None` is `nullptr`. */
  datatype Option<+T> = None | Some(value: T)

  /** The outcome of an operation that can throw: `Failure` carries the message. */
  datatype Result<+R> = Success(value: R) | Failure(error: string)
}
