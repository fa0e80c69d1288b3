/** The optional value used for PHP's "false or a value" results. */
module Wrappers {
  datatype Option<+T> = None | Some(value: T)
}
