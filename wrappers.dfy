/** Optional values and results of calls that can fail. */
module Wrappers {

  datatype Option<+T> = None | Some(value: T)

  /** The outcome of a call into a collaborator that may throw: its value, or the error it threw. */
  datatype Result<+T> = Ok(value: T) | Err(error: string)
}
