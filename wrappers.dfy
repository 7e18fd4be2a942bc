/** The optional value used wherever the application returns `null`/`undefined`
    or tests a value for truthiness. */
module Wrappers {

  datatype Option<+T> = None | Some(value: T)
}
