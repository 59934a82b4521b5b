/** Optional values and results, standing for JavaScript's `null` and thrown errors. */
module Wrappers {

  /** `None` models a JavaScript `null` (or `undefined`) result. */
  datatype Option<+T> = None | Some(value: T)

  /** `Failure` models an `Error` thrown with the given message. */
  datatype Result<+R> = Success(value: R) | Failure(message: string)
}
