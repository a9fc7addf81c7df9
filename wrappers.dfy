/** The usual Some/None wrapper, for lookups and switches that can fail. */
module Wrappers {
  datatype Option<+T> = None | Some(value: T)
}
