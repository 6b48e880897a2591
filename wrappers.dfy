/** Failure-carrying wrappers shared by the modules of this model. */
module Wrappers {

  /** An optional value, as Rust's `Option`. */
  datatype Option<+T> = None | Some(value: T)

  /** The input crate's `Result<T>`: its error is a message. */
  datatype Result<+T> = Ok(value: T) | Err(message: string)

  /** The end of an operation that either returns normally or panics with a message. */
  datatype Outcome = Pass | Panic(message: string)
}
