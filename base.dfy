/** Options and results shared by every module of the model. */
module Base {

  /** A value that may be absent: JavaScript's `null`/`undefined` next to a present value. */
  datatype Option<+T> = None | Some(value: T)

  /** The outcome of an operation that may throw: `Err` carries the error's message. */
  datatype Result<+T, +E> = Ok(value: T) | Err(error: E)
}
