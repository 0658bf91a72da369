/** Optional values (Java's nullable references) and results of operations that may throw. */
module Wrappers {

  /** A Java reference that may be null. */
  datatype Option<+T> = None | Some(value: T)

  /** The outcome of a Java call that either returns a value or throws an exception. */
  datatype Result<+T> = Ok(value: T) | Err(message: string)
}
