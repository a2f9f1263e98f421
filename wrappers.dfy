/** Null and failure as values: `Option` stands for a Java reference that may be
    null, `Result` for an operation that either returns or throws. */
module Wrappers {

  datatype Option<+T> = None | Some(value: T)

  datatype Result<+T, +E> = Ok(value: T) | Err(error: E)

  /** The unit value returned by operations that the source declares `void`. */
  datatype Unit = Unit
}
