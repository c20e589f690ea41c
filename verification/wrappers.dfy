/** Optional values and fallible results, as the Rust code uses `Option` and `Result`. */
module Wrappers {

  /** Rust's `Option<T>` */
  datatype Option<+T> = None | Some(value: T)

  /** Rust's `Result<T, E>` */
  datatype Result<+T, +E> = Success(value: T) | Failure(error: E)
}
