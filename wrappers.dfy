/** The two failure-carrying datatypes shared by every module: Rust's `Option`
    and `Result`, with Rust's constructor names. */
module Wrappers {

  datatype Option<+T> = None | Some(value: T)

  datatype Result<+T, +E> = Ok(value: T) | Err(error: E)
}
