/** Failure-carrying values shared by the handlers: a lookup that may miss and
    a handler that may fail instead of producing a new state. */
module Options {

  datatype Option<+T> = None | Some(value: T)

  datatype Result<+T, +E> = Ok(value: T) | Err(error: E)
}
