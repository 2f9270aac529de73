/** Optional values and results with an error message, used for lookups that may miss
    and for reply parsers that may reject their input. */
module Wrappers {

  datatype Option<+T> = None | Some(value: T)

  datatype Result<+T> = Ok(value: T) | Err(message: string)
}
