/** The two result shapes the Rust code returns everywhere: an optional row and a
    value-or-error. */
module Options {
  datatype Option<+T> = None | Some(value: T)

  datatype Result<+T, +E> = Ok(value: T) | Err(error: E)
}
