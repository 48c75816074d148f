/** The optional value used wherever the source has `undefined`, `null` or a failed parse. */
module Wrappers {

  datatype Option<+T> = None | Some(value: T)
}
