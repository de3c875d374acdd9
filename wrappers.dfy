/** The optional value used wherever the program writes `null`. */
module Wrappers {

  datatype Option<+T> = None | Some(value: T)
}
