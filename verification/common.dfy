/** Small failure-carrying datatypes shared by the whole model. */
module Common {

  /** A value that may be absent: JavaScript's `null`/`undefined` for a field or payload. */
  datatype Option<T> = None | Some(value: T)

  /** The outcome of an operation that either produces a value or throws an Error with a message. */
  datatype Result<T> = Ok(value: T) | Err(message: string)

  function Min(a: int, b: int): int
  {
    if a <= b then a else b
  }
}
