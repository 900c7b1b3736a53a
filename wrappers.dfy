/** The optional value used for the nullable "it" identity and for search results. */
module Wrappers {
  datatype Option<+T> = None | Some(value: T)
}
