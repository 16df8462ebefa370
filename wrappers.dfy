/** Failure-carrying values shared by every module of the model. */
module Wrappers {

  /** A value that may be missing: JavaScript's `undefined`/`null` versus a present value. */
  datatype Option<T> = None | Some(value: T)

  /** The outcome of a library call that may throw: the value, or the thrown error's message. */
  datatype Result<T> = Ok(value: T) | Err(message: string)

  /** What an Express handler sends with `res.json`: `{success: true, ...}` carrying the
      handler's payload, or `{success: false, message}`. */
  datatype Reply<T> = Success(body: T) | Failure(message: string)
}
