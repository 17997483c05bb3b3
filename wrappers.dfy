/** Small value types for Go's `(value, error)` convention. */
module Wrappers {

  /** A Go `error`. The model only passes errors along unchanged, so its text is all it holds. */
  datatype Error = Error(message: string)

  /** A value that may be missing: `None` stands for Go's `nil`. */
  datatype Option<+T> = None | Some(value: T)

  /** What a fallible call into code outside the model returns: a value, or an error. */
  datatype Fetch<+T> = Ok(value: T) | Err(error: Error)
}
