/** The optional value a producer leaves behind in its message slot. */
module Wrappers {

  datatype Option<+T> = None | Some(value: T)
}
