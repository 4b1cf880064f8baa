/** The optional value used where the scripts rely on `null` or `undefined`. */
module Wrappers {

  datatype Option<+T> = None | Some(value: T)
}
