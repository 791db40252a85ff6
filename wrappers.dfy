/** The optional value used for session keys and form fields that may be absent. */
module Wrappers {

  datatype Option<+T> = None | Some(value: T)
}
