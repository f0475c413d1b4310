/** A value that may be missing: a Java reference that may be null, or a call that may throw. */
module Wrappers {

  datatype Option<+T> = None | Some(value: T)
}
