/** Small datatypes and sequence facts shared by the other modules. */
module Basics {

  datatype Option<+T> = None | Some(value: T)

  /** The outcome of a Python call that may raise. */
  datatype Result<+T> = Ok(value: T) | Raised(message: string)

  function Max(a: int, b: int): int {
    if a < b then b else a
  }
}
