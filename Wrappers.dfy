/** Option and Result values shared by the other modules. */
module Wrappers {

  /** A value that may be missing: JavaScript's `undefined` is modelled as `None`. */
  datatype Option<+T> = None | Some(value: T)

  /** A computation that either yields a value or throws with a message. */
  datatype Result<+T> = Ok(value: T) | Err(message: string)
}
