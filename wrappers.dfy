/** The optional value the source expresses with `None`. */
module Wrappers {
  datatype Option<+T> = None | Some(value: T)
}
