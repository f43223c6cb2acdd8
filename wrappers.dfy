/** Optional values (for the source's `null` / absent properties) and results (for thrown errors). */
module Wrappers {

  /** A value that may be absent: `null`, `undefined` or a missing optional member. */
  datatype Option<T> = None | Some(value: T)

  /** The outcome of an operation that either returns a value or throws an error. */
  datatype Result<T, E> = Ok(value: T) | Err(error: E)
}
