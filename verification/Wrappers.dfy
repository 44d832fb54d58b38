/** Optional values, used wherever the source has a nil, a zero time or an empty string meaning "absent". */
module Wrappers {
  datatype Option<+T> = None | Some(value: T)
}
