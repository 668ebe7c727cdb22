/** Optional values (a Java reference that may be null, an Optional) and
    results of calls that may throw. */
module Wrappers {

  datatype Option<+T> = None | Some(value: T)

  /** The outcome of a Java call that either returns a value or throws `E`. */
  datatype Result<+T, +E> = Success(value: T) | Failure(error: E)

  /** The outcome of a Java `void` call that may throw `E`. */
  datatype Outcome<+E> = Pass | Fail(error: E)
}
