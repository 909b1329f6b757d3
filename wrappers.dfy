/** Optional values: a result that may be missing (a failed library call, a line that does not parse). */
module Wrappers {
  datatype Option<+T> = None | Some(value: T)
}
