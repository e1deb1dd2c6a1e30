/** The two wrapper types of the model: JavaScript's `null`-or-value and a thrown error. */
module Wrappers {
  datatype Option<T> = None | Some(value: T)

  datatype Result<T> = Ok(value: T) | Err(message: string)
}
