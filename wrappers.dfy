/** Wrappers shared by every module of the model. */
module Wrappers {

  datatype Option<+T> = None | Some(value: T)

  /** The outcome of an operation that the C# code either completes or aborts with an exception. */
  datatype Result<+T, +E> = Ok(value: T) | Err(error: E)
}
