/** The optional-value datatype shared by the order-intake and catalog models. */
module Wrappers {

  /** A value that may be absent: `null`/`undefined` in the JavaScript original. */
  datatype Option<+T> = None | Some(value: T)
}
