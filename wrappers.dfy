/** Python's `None`-or-value, as used for optional fields and return values. */
module Wrappers {

  datatype Option<+T> = None | Some(value: T)
}
