/** The optional-value datatype used for JSON.parse results and table lookups. */
module Wrappers {

  datatype Option<+T> = None | Some(value: T)
}
