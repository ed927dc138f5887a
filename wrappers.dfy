/** Option, Result and Status: the null values, return-or-throw results and
    succeed-or-throw steps of the action, as values. */
module Wrappers {

  /** A value that may be absent (JavaScript `null`). */
  datatype Option<+T> = None | Some(value: T)

  /** The result of a call that either returns a value or throws an Error
      carrying `message`. */
  datatype Result<+T> = Ok(value: T) | Err(message: string)

  /** The outcome of a call whose only interesting effect is whether it threw. */
  datatype Status = Pass | Fail(message: string)
}
