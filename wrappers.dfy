/** Optional values and results with an error, for the places where the wizard
    code either has no value (a `null` in Kotlin) or throws. */
module Wrappers {

  datatype Option<+T> = None | Some(value: T)

  datatype Result<+T, +E> = Ok(value: T) | Err(error: E)
}
