/** The optional value used for parse results. */
module Opt {
  datatype Option<+T> = None | Some(value: T)
}
