/** The optional-value wrapper used wherever the source has `undefined`, `null` or a missing record. */
module Wrappers {

  datatype Option<+T> = None | Some(value: T)
}
