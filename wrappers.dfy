/** The optional value used wherever the tracker returns None or skips a value. */
module Wrappers {

  datatype Option<+T> = None | Some(value: T)

}
