/** Option and Result, the two failure-carrying datatypes the model uses. */
module Wrappers {

  /** A value that may be absent: an optional field, or a lookup that found nothing. */
  datatype Option<+T> = None | Some(value: T)

  /** The outcome of parsing a form: the normalized value, or the reasons it was refused. */
  datatype Result<+R, +E> = Ok(value: R) | Err(error: E)
}
