/** The optional value returned by the platform's option getters and map lookups. */
module Wrappers {
  datatype Option<+T> = None | Some(value: T)
}
