/** What several modules need and none of them owns. */
module Wrappers {

  datatype Option<T> = None | Some(value: T)
}
