/** The optional value used wherever the engine may produce nothing. */
module Wrappers {

  datatype Option<T> = None | Some(value: T)
}
