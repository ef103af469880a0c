/** The optional-value and result types the rest of the model returns in place of
    the source's `None`/`undefined` results and raised errors. */
module Wrappers {

  datatype Option<+T> = None | Some(value: T)

  datatype Result<+T, +E> = Ok(value: T) | Err(error: E)
}
