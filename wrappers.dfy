/** Option, for a C operation that either yields a value or ends the process. */
module Wrappers {

  datatype Option<+T> = None | Some(value: T)
}
