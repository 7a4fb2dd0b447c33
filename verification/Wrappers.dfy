/** The stock option type used for SQL NULL, missing rows and failed calls. */
module Wrappers {
  datatype Option<+T> = None | Some(value: T)
}
