/** Option, used for nullable queue items (the shutdown sentinel) and failed enumerations. */
module Wrappers {
  datatype Option<T> = None | Some(value: T)
}
