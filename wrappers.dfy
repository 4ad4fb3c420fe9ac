/** Option and Result, the two failure-carrying types the Rust sources use everywhere. */
module Wrappers {

  datatype Option<+T> = None | Some(value: T)

  /** Rust's `Result<T, E>`. */
  datatype Result<+T, +E> = Ok(value: T) | Err(error: E)

  /** Rust's unit value `()`. */
  datatype Unit = Unit
}
