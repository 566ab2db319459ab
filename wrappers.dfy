/** Option and Result, the two failure-carrying shapes the source uses
    (`Option<String>` for match patterns, fallible conversions as `Result`). */
module Wrappers {

  datatype Option<+T> = None | Some(value: T)

  datatype Result<+T, +E> = Ok(value: T) | Err(error: E)
}
