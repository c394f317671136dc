/** Optional values and results: Swift's `T?` and `throws`, as datatypes. */
module Wrappers {

  /** Swift's `Optional<T>`: `nil` or a wrapped value. */
  datatype Option<+T> = None | Some(value: T) {

    /** Swift's `??` operator: the wrapped value, or `default` for `nil`. */
    function GetOr(default: T): T {
      match this
      case Some(v) => v
      case None => default
    }
  }

  /** The outcome of a Swift function that `throws`: a value or the thrown error. */
  datatype Result<+T, +E> = Ok(value: T) | Err(error: E)
}
