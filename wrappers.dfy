/** The optional value used wherever a lookup, a parse or a decode may produce nothing. */
module Wrappers {

  datatype Option<+T> = None | Some(value: T)

}
