/** Option and the settled value of an asynchronous JavaScript call. */
module Wrappers {

  datatype Option<+T> = None | Some(value: T)

  /** How a promise settles: it resolves with a value or rejects with an error message. */
  datatype Attempt<+T> = Ok(value: T) | Fail(error: string)
}
