/** The option type used for the source's `T | null` and `T | undefined`. */
module Wrappers {
  datatype Option<+T> = None | Some(value: T)
}
