/** Optional values: used wherever the source signals "absent" with a NaN
    sentinel or an invalid index. */
module Wrappers {
  datatype Option<+T> = None | Some(value: T)
}
