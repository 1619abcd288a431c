/** The optional result of a decode that may fail. */
module Wrappers {

  datatype Option<+T> = None | Some(value: T)
}
