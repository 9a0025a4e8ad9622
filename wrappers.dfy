/** The optional value used wherever the source has `undefined`/`null` or a lookup that may fail. */
module Wrappers {
  datatype Option<+T> = None | Some(value: T)
}
