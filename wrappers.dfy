/** The optional value used for the model's partial operations. */
module Wrappers {

  datatype Option<+T> = None | Some(value: T)
}
