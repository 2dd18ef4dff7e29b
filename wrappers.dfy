/** The optional value used wherever the source has `x | null` or `x | undefined`. */
module Wrappers {
  datatype Option<+T> = None | Some(value: T)
}
