/** Small helper datatypes shared by the other modules. */
module Wrappers {

  /** A value that may be absent: the status code of a request that never got a response. */
  datatype Option<+T> = None | Some(value: T)
}
