/** The usual Some/None datatype, used for results that may be absent. */
module Wrappers {

  datatype Option<+T> = None | Some(value: T)
}
