/** The optional value used for lookups and for validation verdicts. */
module Wrappers {
  datatype Option<+T> = None | Some(value: T)
}
