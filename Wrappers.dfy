/** Swift's optional values, used for the failure results of the model. */
module Wrappers {

  /** An optional value: Swift's `T?`, with `None` for `nil`. */
  datatype Option<+T> = None | Some(value: T)
}
