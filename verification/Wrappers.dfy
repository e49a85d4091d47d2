/** Results shared by all modules. */
module Wrappers {

  datatype Option<+T> = None | Some(value: T)

  /** Raised stands for any exception. */
  datatype Result<+T> = Ok(value: T) | Raised
}
