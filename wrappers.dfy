/** The Option and Result values the models use for Python's `None` and for
    exceptions raised to the caller. */
module Wrappers {

  datatype Option<+T> = None | Some(value: T)

  datatype Result<+T, +E> = Ok(value: T) | Err(error: E)
}
