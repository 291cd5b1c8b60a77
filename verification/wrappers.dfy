/** The optional result of a lookup: `Some(v)` stands for Go's `(v, true)`,
    `None` for `(nil, false)`. */
module Wrappers {
  datatype Option<+T> = None | Some(value: T)
}
