/** The optional value used for absent headers, failed token checks and missing rows. */
module Wrappers {

  datatype Option<+T> = None | Some(value: T)
}
