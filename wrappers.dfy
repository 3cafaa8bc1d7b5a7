/** The optional value that the parsers and the demangler hand back. */
module Wrappers {

  datatype Option<+T> = None | Some(value: T)
}
