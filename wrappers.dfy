/** The optional value used where the page reads an attribute or a property that may be absent. */
module Wrappers {

  datatype Option<+T> = None | Some(value: T)
}
