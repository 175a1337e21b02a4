/** Option and Result, the two failure-carrying datatypes every other module uses. */
module Wrappers {

  /** A value that may be absent: a C pointer that may be NULL, a Rust `Option`. */
  datatype Option<+T> = None | Some(value: T)

  /** A value or an error: a Rust `Result`, or a C call that returns < 0 and fills an error. */
  datatype Result<+T, +E> = Ok(value: T) | Err(error: E)
}
