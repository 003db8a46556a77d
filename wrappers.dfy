/** The optional value used where the source returns a dictionary that may lack a key. */
module Wrappers {

  datatype Option<+T> = None | Some(value: T)
}
