/** Types shared by the models. */
module Wrappers {
  datatype Option<+T> = None | Some(value: T)

  datatype Result<+T, +E> = Ok(value: T) | Err(error: E)

  /** A Python value; what it is does not matter here, except that None is one of them. */
  datatype Value = Null | Datum(content: int)
}
