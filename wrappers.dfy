/** Option and Result: `None` stands for a C# `null` reference, `Err` for an
    exception thrown out of a constructor. */
module Wrappers {

  datatype Option<+T> = None | Some(value: T)

  datatype Result<+T, +E> = Ok(value: T) | Err(error: E)
}
