/** The optional value used where the source returns `nil` or a Go `error`. */
module Wrappers {

  datatype Option<+T> = None | Some(value: T)
}
