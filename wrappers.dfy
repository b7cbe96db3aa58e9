/** Optional values and results of calls that may fail. */
module Wrappers {

  datatype Option<+T> = None | Some(value: T)

  datatype Result<+T, +E> = Ok(value: T) | Err(error: E)

  /** How an async handler's promise settles: it resolves, or it rejects because an awaited call threw. */
  datatype Settled = Resolved | Rejected(reason: string)
}
