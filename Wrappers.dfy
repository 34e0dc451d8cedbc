/** The optional value used for "nothing received" and "no decision yet". */
module Wrappers {
  datatype Option<+T> = None | Some(value: T)
}
