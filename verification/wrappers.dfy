/** The optional-value type that every fallible operation of the tile core returns. */
module Wrappers {

  /** Rust's `Option<T>`: a value or nothing. */
  datatype Option<+T> = None | Some(value: T)
}
