/** Small things the other modules share. */
module Wrappers {
  /** A value that may be missing, as the source's `X | None`. */
  datatype Option<+T> = None | Some(value: T)
}
