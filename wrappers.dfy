/** Option, used for partial lookups and for "no value yet". */
module Wrappers {
  datatype Option<+T> = None | Some(value: T)
}
