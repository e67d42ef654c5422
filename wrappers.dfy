/** The optional-value datatype used for NULL pointers and WebIDL members that may be absent. */
module Wrappers {

  datatype Option<T> = None | Some(value: T)
}
