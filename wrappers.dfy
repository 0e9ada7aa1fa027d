/** Option and Result values for the error paths of the model: a Python
    exception that the source raises becomes an Err carrying a description
    of that exception. */
module Wrappers {

  datatype Option<+T> = None | Some(value: T)

  datatype Result<+T, +E> = Ok(value: T) | Err(error: E)
}
