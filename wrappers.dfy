/** The optional value returned where the helper answers with PHP's `null`. */
module Wrappers {
  datatype Option<T> = None | Some(value: T)
}
