/** The optional-value datatype used for the parser's output and for search results. */
module Wrappers {
  datatype Option<+T> = None | Some(value: T)
}
