/** The optional-value datatype used for nullable handles. */
module Wrappers {

  /** `None` stands for a null handle, `Some(v)` for a valid one. */
  datatype Option<+T> = None | Some(value: T)
}
