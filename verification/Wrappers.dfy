/** What a lookup or a parser may or may not give. */
module Wrappers {
  datatype Option<+T> = None | Some(value: T)
}
