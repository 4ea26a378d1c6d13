/** Optional values: the add-on's `None` checks on the camera and the active object. */
module Wrappers {
  datatype Option<+T> = None | Some(value: T)
}
