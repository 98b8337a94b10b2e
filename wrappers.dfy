/** The optional-value datatype used for "no summary" results. */
module Wrappers {

  datatype Option<+T> = None | Some(value: T)
}
