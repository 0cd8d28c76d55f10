/** Optional values and results with an error case. */
module Wrappers {

  /** A value that may be absent (`undefined`/`null` in the source). */
  datatype Option<+T> = None | Some(value: T)

  /** An outcome that is either a value or a thrown error. */
  datatype Result<+T, +E> = Ok(value: T) | Err(error: E)
}
