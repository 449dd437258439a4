/** Failure-compatible results shared by the modules. */
module Wrappers {

  datatype Option<+T> = None | Some(value: T)

  datatype Result<+T, +E> = Ok(value: T) | Err(error: E)

  /** How a call to another system ends. One that fails may still have taken effect. */
  datatype Reply = Answered | Lost(applied: bool)

  /** A merge patch writes a field only if it differs in the object it was computed
      from, which need not be the stored one. */
  function Merged<T(==)>(stored: T, base: T, wanted: T): T {
    if wanted == base then stored else wanted
  }
}
