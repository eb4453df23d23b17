/** The optional value used wherever the source returns `undefined`/`null` or a value. */
module Wrappers {
  datatype Option<+T> = None | Some(value: T)
}
