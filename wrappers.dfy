/** Optional values and pass/fail outcomes shared by the whole model. */
module Wrappers {

  /** A value that may be absent (`undefined` / `null` in the application). */
  datatype Option<+T> = None | Some(value: T)

  /** The result of an operation that either completes or throws an error of kind `E`. */
  datatype Outcome<+E> = Pass | Fail(error: E)
}
