/** An optional value, used for the exception that may or may not occur and for parse results. */
module Wrappers {
  datatype Option<+T> = None | Some(value: T)
}
