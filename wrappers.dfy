/** `Option`, shared by the modules of this model. */
module Wrappers {

  /** A value that may be missing: JavaScript's `null`/`undefined`, an absent header, NaN from `parseInt`. */
  datatype Option<+T> = None | Some(value: T)
}
