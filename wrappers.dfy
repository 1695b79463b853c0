/** Optional values, the exceptions the evaluator raises, and results that carry them. */
module Wrappers {

  datatype Option<+T> = None | Some(value: T)

  /** The Python exception kinds the evaluator can raise, with their messages. */
  datatype Error =
    | AssertionError(message: string)
    | ValueError(message: string)
    | KeyError(key: string)

  /** A value, or the exception raised instead of producing it. */
  datatype Result<+T> = Ok(value: T) | Err(error: Error)
}
