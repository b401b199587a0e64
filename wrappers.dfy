/** The optional value that the packet inspector's decoders return. */
module Wrappers {

  datatype Option<+T> = None | Some(value: T)
}
