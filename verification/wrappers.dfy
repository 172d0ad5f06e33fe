/** Option and Result, used for Python's `None`-free error paths (a failed
    `int(s, 2)` parse, an out-of-bounds row index). */
module Wrappers {

  datatype Option<+T> = None | Some(value: T)

  datatype Result<+T, +E> = Ok(value: T) | Err(error: E)
}
