/** Option and Result: the model's replacement for null and for checked exceptions. */
module Wrappers {

  datatype Option<+T> = None | Some(value: T)

  /** `Err` stands for an exception thrown by the modelled Java method. */
  datatype Result<+T, +E> = Ok(value: T) | Err(error: E)
}
