/** The two failure-carrying datatypes the model uses: an optional value,
    and a value-or-error for the operations that raise in the program. */
module Wrappers {

  datatype Option<+T> = None | Some(value: T)

  datatype Result<+T, +E> = Ok(value: T) | Err(error: E)
}
