/** Optional values and error-carrying results, used where the TypeScript code has
    `undefined`/`null` or throws an Error. */
module Wrappers {

  datatype Option<+T> = None | Some(value: T)

  /** `Ok(v)` is a normal return; `Err(message)` stands for an `Error` thrown with that message. */
  datatype Result<+T> = Ok(value: T) | Err(message: string)
}
