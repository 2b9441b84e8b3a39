/** The usual optional-value datatype: Go's nil pointers and nil maps become None. */
module Wrappers {

  datatype Option<+T> = None | Some(value: T)
}
