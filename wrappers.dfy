/** A value that may be absent: JavaScript's `null` where the session state allows it. */
module Wrappers {

  datatype Option<+T> = None | Some(value: T)
}
