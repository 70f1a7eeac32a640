/** The optional value used for element text and for the outcome of date parsing. */
module Wrappers {

  datatype Option<T> = None | Some(value: T)
}
