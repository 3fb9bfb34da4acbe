/** The optional value used where the source returns "absent". */
module Wrappers {

  datatype Option<+T> = None | Some(value: T)
}
