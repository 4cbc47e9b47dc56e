// The one failure-free container every other module shares.
module Wrappers {
  datatype Option<+T> = None | Some(value: T)
}
