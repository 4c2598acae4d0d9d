/** Option and Result, the two wrappers every other module uses. */
module Basics {

  datatype Option<T> = None | Some(value: T)

  /** The outcome of a step that may raise: `Err` carries what was raised. */
  datatype Result<T, E> = Ok(value: T) | Err(error: E)
}
