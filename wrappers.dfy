/** The optional value used for JavaScript's `number | null`. */
module Wrappers {
  datatype Option<+T> = None | Some(value: T)
}
