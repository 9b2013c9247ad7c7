/** The optional value used for the source's nullable strings. */
module Wrappers {

  /** `None` stands for a null reference, `Some(v)` for a present value `v`. */
  datatype Option<+T> = None | Some(value: T)
}
