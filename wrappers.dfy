/** The optional value shared by the other modules. */
module Wrappers {

  /** A value that may be absent; PHP's `null` is `None`. */
  datatype Option<T> = None | Some(value: T)
}
