/** A value that may be absent: the script's `null` (an unset attribute, no current project). */
module Wrappers {
  datatype Option<+T> = None | Some(value: T)
}
