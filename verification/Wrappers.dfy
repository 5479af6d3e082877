/** The one failure-free optional type the other modules share. */
module Wrappers {

  datatype Option<+T> = None | Some(value: T)
}
