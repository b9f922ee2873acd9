/** The optional value used wherever the system either produces something or fails. */
module Wrappers {

  datatype Option<+T> = None | Some(value: T)
}
