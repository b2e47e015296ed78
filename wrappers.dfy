/** The optional value used for "this fingertip touches no key". */
module Wrappers {

  datatype Option<+T> = None | Some(value: T)
}
