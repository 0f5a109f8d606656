/** Result types for optional columns and for the errors a call can return. */
module Options {

  datatype Option<+T> = None | Some(value: T)

  datatype Outcome<+T, +E> = Ok(value: T) | Err(error: E)
}
