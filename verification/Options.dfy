/** The Some/None and Ok/Err datatypes that stand for nullable fields and thrown errors. */
module Options {
  datatype Option<+T> = None | Some(value: T)

  datatype Result<+T, +E> = Ok(value: T) | Err(error: E)
}
