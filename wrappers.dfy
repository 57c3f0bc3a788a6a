/** The optional value used for "a snapshot was or was not handed over". */
module Wrappers {
  datatype Option<+T> = None | Some(value: T)
}
