/** The optional value used wherever a column may hold a null. */
module Wrappers {

  datatype Option<+T> = None | Some(value: T)
}
