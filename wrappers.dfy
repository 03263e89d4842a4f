/** Optional values: the drawer's coordinate fields start out `undefined`. */
module Wrappers {
  datatype Option<+T> = None | Some(value: T)
}
