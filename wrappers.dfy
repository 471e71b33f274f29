/** The Option and Result datatypes that every module of the gateway model uses. */
module Wrappers {

  datatype Option<+T> = None | Some(value: T)

  /** The `Result<T, String>` of the gateway's Rust code, with a typed error. */
  datatype Result<+T, +E> = Ok(value: T) | Err(error: E)
}
