/** The optional value shared by every module of the model. */
module Wrappers {

  /** Python's "a value or `None`". */
  datatype Option<+T> = None | Some(value: T)
}
