/** A value that may be absent: an absent file, a line that does not parse, a search with no hit. */
module Wrappers {
  datatype Option<T> = None | Some(value: T)
}
