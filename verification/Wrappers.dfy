/** Values that may be absent, standing for the source's `None`. */
module Wrappers {

  datatype Option<+T> = None | Some(value: T)
}
