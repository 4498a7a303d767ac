/** The optional value used where the JavaScript code reads `undefined`. */
module Wrappers {

  datatype Option<+T> = None | Some(value: T)
}
